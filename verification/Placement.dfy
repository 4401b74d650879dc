/** Zone-diverse placement of regions on live nodes. */
module Placement {
  import opened Prelude

  datatype Node = Node(id: string, zone: string, capacity: nat, load: real, heartbeat: real, healthy: bool)

  datatype Region = Region(space: string, name: string, replicas: seq<string>, leader: string, epoch: nat)

  datatype Fault = InvalidAssignment | Insufficient | InvalidNode | UnknownNode | NegativeLoad | UnknownRegion

  predicate Live(n: Node, now: real, timeout: real) {
    n.healthy && now - n.heartbeat <= timeout
  }

  // ----------------------------------------------------------- order of nodes

  /** Lexicographic order by code point. */
  predicate Precedes(a: string, b: string) {
    b != [] && (a == [] || a[0] < b[0] || (a[0] == b[0] && Precedes(a[1..], b[1..])))
  }

  lemma {:induction false} PrecedesTotal(a: string, b: string)
    ensures a == b || Precedes(a, b) || Precedes(b, a)
    ensures !(Precedes(a, b) && Precedes(b, a)) && !Precedes(a, a)
    decreases |a|
  {
    if a != [] && b != [] && a[0] == b[0] {
      PrecedesTotal(a[1..], b[1..]);
      assert a == [a[0]] + a[1..] && b == [b[0]] + b[1..];
    }
    if a != [] { PrecedesTotal(a[1..], a[1..]); }
  }

  lemma {:induction false} PrecedesTrans(a: string, b: string, c: string)
    requires Precedes(a, b) && Precedes(b, c)
    ensures Precedes(a, c)
    decreases |a|
  {
    if a != [] && a[0] == b[0] && b[0] == c[0] { PrecedesTrans(a[1..], b[1..], c[1..]); }
  }

  /** Less loaded, or as loaded with the smaller id. */
  predicate Before(a: Node, b: Node) {
    a.load < b.load || (a.load == b.load && Precedes(a.id, b.id))
  }

  lemma BeforeOrder(a: Node, b: Node, c: Node)
    ensures a.id == b.id || Before(a, b) || Before(b, a)
    ensures !(Before(a, b) && Before(b, a))
    ensures Before(a, b) && Before(b, c) ==> Before(a, c)
  {
    PrecedesTotal(a.id, b.id);
    if Precedes(a.id, b.id) && Precedes(b.id, c.id) { PrecedesTrans(a.id, b.id, c.id); }
  }

  ghost predicate Sorted(c: seq<Node>) {
    forall i, j :: 0 <= i < j < |c| ==> Before(c[i], c[j])
  }

  ghost predicate DistinctIds(c: seq<Node>) {
    forall i, j :: 0 <= i < j < |c| ==> c[i].id != c[j].id
  }

  method SortByLoad(nodes: seq<Node>) returns (sorted: seq<Node>)
    requires DistinctIds(nodes)
    ensures Sorted(sorted) && Elems(sorted) == Elems(nodes) && |sorted| == |nodes|
  {
    sorted := [];
    for i := 0 to |nodes|
      invariant Sorted(sorted) && Elems(sorted) == Elems(nodes[..i]) && |sorted| == i
    {
      ElemsOfOneMore(nodes, i);
      var j := 0;
      while j < |sorted| && Before(sorted[j], nodes[i])
        invariant j <= |sorted| && forall k :: 0 <= k < j ==> Before(sorted[k], nodes[i])
        decreases |sorted| - j
      {
        j := j + 1;
      }
      InsertSorted(sorted, j, nodes[i], nodes[..i]);
      sorted := sorted[..j] + [nodes[i]] + sorted[j..];
    }
    assert nodes[..|nodes|] == nodes;
  }

  lemma InsertSorted(s: seq<Node>, j: nat, x: Node, from: seq<Node>)
    requires Sorted(s) && j <= |s| && Elems(s) == Elems(from) && forall i :: 0 <= i < |from| ==> from[i].id != x.id
    requires (forall k :: 0 <= k < j ==> Before(s[k], x)) && (j < |s| ==> !Before(s[j], x))
    ensures Sorted(s[..j] + [x] + s[j..]) && Elems(s[..j] + [x] + s[j..]) == Elems(s) + {x}
  {
    assert s == s[..j] + s[j..];
    forall k | j <= k < |s|
      ensures Before(x, s[k])
    {
      assert s[j] in Elems(from);
      BeforeOrder(s[j], x, x);
      if k > j { BeforeOrder(x, s[j], s[k]); }
    }
  }

  // -------------------------------------------------------- choosing replicas

  function ZonesOf(c: seq<Node>): set<string> {
    set n | n in c :: n.zone
  }

  /** The first node of each zone among the first `i` candidates. */
  function Picks(c: seq<Node>, i: nat): seq<Node>
    requires i <= |c|
  {
    if i == 0 then []
    else if c[i - 1].zone in ZonesOf(c[..i - 1]) then Picks(c, i - 1)
    else Picks(c, i - 1) + [c[i - 1]]
  }

  /** Those of the first `i` candidates that are still missing are added in order. */
  function Filled(c: seq<Node>, selected: seq<Node>, i: nat): seq<Node>
    requires i <= |c|
  {
    if i == 0 then selected
    else
      var s := Filled(c, selected, i - 1);
      if c[i - 1] in s then s else s + [c[i - 1]]
  }

  /** All candidates in the order of preference. */
  function Preference(c: seq<Node>): seq<Node> {
    Filled(c, Picks(c, |c|), |c|)
  }

  lemma ZonesOneMore(c: seq<Node>, i: nat)
    requires i < |c|
    ensures ZonesOf(c[..i + 1]) == ZonesOf(c[..i]) + {c[i].zone}
  {
    assert c[..i + 1] == c[..i] + [c[i]];
  }

  lemma {:induction false} PicksPrefix(c: seq<Node>, i: nat, j: nat)
    requires i <= j <= |c|
    ensures Picks(c, i) <= Picks(c, j)
    decreases j
  {
    if i < j { PicksPrefix(c, i, j - 1); }
  }

  lemma {:induction false} FilledPrefix(c: seq<Node>, s: seq<Node>, i: nat, j: nat)
    requires i <= j <= |c|
    ensures Filled(c, s, i) <= Filled(c, s, j)
    decreases j
  {
    if i < j { FilledPrefix(c, s, i, j - 1); }
  }

  ghost predicate DistinctZones(s: seq<Node>) {
    forall i, j :: 0 <= i < j < |s| ==> s[i].zone != s[j].zone
  }

  lemma {:induction false} PicksZones(c: seq<Node>, i: nat)
    requires i <= |c|
    ensures DistinctZones(Picks(c, i)) && ZonesOf(Picks(c, i)) == ZonesOf(c[..i])
    decreases i
  {
    if i > 0 {
      PicksZones(c, i - 1);
      ZonesOneMore(c, i - 1);
      var before := Picks(c, i - 1);
      if c[i - 1].zone !in ZonesOf(c[..i - 1]) {
        assert ZonesOf(before + [c[i - 1]]) == ZonesOf(before) + {c[i - 1].zone};
        assert forall k :: 0 <= k < |before| ==> before[k].zone in ZonesOf(before);
      }
    }
  }

  lemma {:induction false} PicksAreFirst(c: seq<Node>, i: nat)
    requires i <= |c|
    ensures forall n :: n in Picks(c, i) ==> IsFirstOfZone(c, n)
    ensures i > 0 ==> Picks(c, i) != [] && Picks(c, i)[0] == c[0]
    decreases i
  {
    if i > 0 {
      PicksAreFirst(c, i - 1);
      if c[i - 1].zone !in ZonesOf(c[..i - 1]) {
        assert forall n :: n in c[..i - 1] ==> n.zone in ZonesOf(c[..i - 1]);
        assert forall k :: 0 <= k < i - 1 ==> c[k] in c[..i - 1];
        assert IsFirstOfZone(c, c[i - 1]);
      }
    }
  }

  /** The picks stand for every zone exactly once, each by its least node. */
  lemma PicksCover(c: seq<Node>)
    ensures var picks := Picks(c, |c|);
            && DistinctZones(picks) && ZonesOf(picks) == ZonesOf(c)
            && (forall n :: n in picks ==> n in c && IsFirstOfZone(c, n))
            && (c != [] ==> picks != [] && picks[0] == c[0])
  {
    PicksZones(c, |c|);
    PicksAreFirst(c, |c|);
    assert c[..|c|] == c;
  }

  ghost predicate IsFirstOfZone(c: seq<Node>, n: Node) {
    exists k :: 0 <= k < |c| && c[k] == n && forall j :: 0 <= j < k ==> c[j].zone != n.zone
  }

  lemma {:induction false} FilledHolds(c: seq<Node>, s: seq<Node>, i: nat)
    requires i <= |c| && NoDuplicates(s)
    ensures NoDuplicates(Filled(c, s, i)) && Elems(Filled(c, s, i)) == Elems(s) + Elems(c[..i])
    decreases i
  {
    if i > 0 {
      FilledHolds(c, s, i - 1);
      ElemsOfOneMore(c, i - 1);
      var f := Filled(c, s, i - 1);
      if c[i - 1] in f {
        assert c[i - 1] in Elems(f);
      } else {
        assert Elems(f + [c[i - 1]]) == Elems(f) + {c[i - 1]};
      }
    }
  }

  /** What is added after the picks is added in the order of the candidates. */
  lemma {:induction false} FillersInOrder(c: seq<Node>, s: seq<Node>, i: nat)
    requires i <= |c| && Sorted(c)
    ensures s <= Filled(c, s, i)
    ensures forall k :: |s| <= k < |Filled(c, s, i)| ==> Filled(c, s, i)[k] in c[..i]
    ensures forall k, m :: |s| <= k < m < |Filled(c, s, i)| ==> Before(Filled(c, s, i)[k], Filled(c, s, i)[m])
    decreases i
  {
    if i > 0 {
      FillersInOrder(c, s, i - 1);
      assert c[..i] == c[..i - 1] + [c[i - 1]];
      var f := Filled(c, s, i - 1);
      forall k | |s| <= k < |f|
        ensures Before(f[k], c[i - 1])
      {
        var n :| 0 <= n < i - 1 && c[..i - 1][n] == f[k];
        assert c[n] == f[k];
      }
    }
  }

  /** All candidates, each once, the least of them first. */
  lemma PreferenceIsWhole(c: seq<Node>)
    requires Sorted(c) && DistinctIds(c)
    ensures var p := Preference(c); NoDuplicates(p) && Elems(p) == Elems(c) && |p| == |c| && Picks(c, |c|) <= p
    ensures c != [] ==> Preference(c)[0] == c[0]
  {
    var picks := Picks(c, |c|);
    PicksCover(c);
    assert c[..|c|] == c;
    assert NoDuplicates(picks);
    assert Elems(picks) <= Elems(c);
    FilledHolds(c, picks, |c|);
    FillersInOrder(c, picks, |c|);
    DistinctCount(Preference(c));
    assert NoDuplicates(c);
    DistinctCount(c);
  }

  lemma {:induction false} ZoneCount(s: seq<Node>)
    requires DistinctZones(s)
    ensures |ZonesOf(s)| == |s|
    decreases |s|
  {
    if s != [] {
      var front, last := s[..|s| - 1], s[|s| - 1];
      ZoneCount(front);
      assert s == front + [last];
      assert ZonesOf(s) == ZonesOf(front) + {last.zone};
      assert forall k :: 0 <= k < |front| ==> front[k] == s[k];
      assert last.zone !in ZonesOf(front);
    }
  }

  function Min(a: nat, b: nat): nat {
    if a <= b then a else b
  }

  /** The chosen nodes cover as many zones as that many replicas can. */
  lemma ChosenCoverZones(c: seq<Node>, rf: nat)
    requires Sorted(c) && DistinctIds(c) && rf <= |c|
    ensures |Preference(c)| == |c| && |ZonesOf(Preference(c)[..rf])| == Min(rf, |ZonesOf(c)|)
  {
    var p, picks := Preference(c), Picks(c, |c|);
    PreferenceIsWhole(c);
    PicksCover(c);
    assert c[..|c|] == c;
    ZoneCount(picks);
    assert p[..|picks|] == picks;
    if rf <= |picks| {
      assert p[..rf] == picks[..rf];
      ZoneCount(picks[..rf]);
    } else {
      forall z | z in ZonesOf(c)
        ensures z in ZonesOf(p[..rf])
      {
        var n :| n in picks && n.zone == z;
        assert picks <= p[..rf];
        assert n in p[..rf];
      }
      forall z | z in ZonesOf(p[..rf])
        ensures z in ZonesOf(c)
      {
        var n :| n in p[..rf] && n.zone == z;
        assert n in Elems(p) && n in Elems(c);
      }
      assert ZonesOf(p[..rf]) == ZonesOf(c);
    }
  }

  /** A node that was passed over is worse than every chosen node of its own
      zone, and than every chosen node beyond the first of each zone. */
  lemma PassedOverIsWorse(c: seq<Node>, rf: nat, k: nat, m: nat)
    requires Sorted(c) && DistinctIds(c) && k < rf <= m < |c|
    ensures |Preference(c)| == |c|
    ensures var p := Preference(c); (p[k].zone == p[m].zone || k >= |Picks(c, |c|)|) ==> Before(p[k], p[m])
  {
    var p, picks := Preference(c), Picks(c, |c|);
    PreferenceIsWhole(c);
    FillersInOrder(c, picks, |c|);
    PicksCover(c);
    if k < |picks| && p[k].zone == p[m].zone {
      assert p[k] == picks[k] && picks[k] in picks;
      var a :| 0 <= a < |c| && c[a] == p[k] && forall j :: 0 <= j < a ==> c[j].zone != p[k].zone;
      assert p[m] in Elems(p);
      var b :| 0 <= b < |c| && c[b] == p[m];
      assert p[k] != p[m];
    }
  }

  /** The first pass: one node of each zone, until there are enough. */
  method PickZones(c: seq<Node>, rf: nat) returns (selected: seq<Node>)
    ensures selected == Front(Picks(c, |c|), rf)
  {
    selected := [];
    var zones: set<string> := {};
    var i := 0;
    while i < |c| && |selected| < rf
      invariant i <= |c| && selected == Picks(c, i) && zones == ZonesOf(c[..i]) && |selected| <= rf
      decreases |c| - i
    {
      ZonesOneMore(c, i);
      if c[i].zone !in zones {
        selected, zones := selected + [c[i]], zones + {c[i].zone};
      }
      i := i + 1;
    }
    PicksPrefix(c, i, |c|);
  }

  /** The second pass: the remaining places go to the least loaded nodes. */
  method FillUp(c: seq<Node>, picks: seq<Node>, rf: nat) returns (selected: seq<Node>)
    requires |picks| < rf
    ensures selected == Front(Filled(c, picks, |c|), rf)
  {
    selected := picks;
    var j := 0;
    while j < |c| && |selected| < rf
      invariant j <= |c| && selected == Filled(c, picks, j) && |selected| <= rf
      decreases |c| - j
    {
      if c[j] !in selected { selected := selected + [c[j]]; }
      j := j + 1;
    }
    FilledPrefix(c, picks, j, |c|);
  }

  function Front(s: seq<Node>, n: nat): seq<Node> {
    if |s| <= n then s else s[..n]
  }

  method Select(c: seq<Node>, rf: nat) returns (selected: seq<Node>)
    requires Sorted(c) && DistinctIds(c) && 1 <= rf <= |c|
    ensures |Preference(c)| == |c| && selected == Preference(c)[..rf]
  {
    PreferenceIsWhole(c);
    selected := PickZones(c, rf);
    if |selected| < rf {
      selected := FillUp(c, selected, rf);
    }
  }
}
