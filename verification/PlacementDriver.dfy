/** The placement driver: nodes with heartbeats, regions and their epochs. */
module Placements {
  import opened Prelude
  import opened Placement

  datatype Key = Key(space: string, name: string)

  function IdsOf(s: seq<Node>): (ids: seq<string>)
    ensures |ids| == |s|
  {
    seq(|s|, i requires 0 <= i < |s| => s[i].id)
  }

  function LiveIds(nodes: map<string, Node>, now: real, timeout: real): set<string> {
    set id | id in nodes && Live(nodes[id], now, timeout)
  }

  function ZonesOfIds(nodes: map<string, Node>, ids: set<string>): set<string>
    requires ids <= nodes.Keys
  {
    set id | id in ids :: nodes[id].zone
  }

  ghost predicate AllLive(nodes: map<string, Node>, now: real, timeout: real, ids: seq<string>) {
    Elems(ids) <= LiveIds(nodes, now, timeout)
  }

  ghost predicate NodesNamed(nodes: map<string, Node>) {
    forall id :: id in nodes ==> nodes[id].id == id
  }

  /** As many distinct live replicas as asked for, over as many zones as they can
      cover; the leader is the least loaded live node, and no live node was passed
      over for a worse one of its zone. */
  ghost predicate WellPlaced(replicas: seq<string>, nodes: map<string, Node>, now: real, timeout: real, rf: nat) {
    var live := LiveIds(nodes, now, timeout);
    && |replicas| == rf >= 1 && NoDuplicates(replicas) && Elems(replicas) <= live
    && |ZonesOfIds(nodes, Elems(replicas))| == Min(rf, |ZonesOfIds(nodes, live)|)
    && replicas[0] in live && (forall id {:trigger Before(nodes[replicas[0]], nodes[id])} :: id in live && id != replicas[0] ==> Before(nodes[replicas[0]], nodes[id]))
    && forall a, b {:trigger Before(nodes[a], nodes[b])} :: a in replicas && a in live && b in live && b !in replicas && nodes[a].zone == nodes[b].zone ==> Before(nodes[a], nodes[b])
  }

  /** The live nodes, least loaded first. */
  ghost predicate Ranks(c: seq<Node>, nodes: map<string, Node>, now: real, timeout: real) {
    && Sorted(c) && (forall n :: n in c ==> n.id in LiveIds(nodes, now, timeout) && nodes[n.id] == n)
    && forall id :: id in LiveIds(nodes, now, timeout) ==> nodes[id] in c
  }

  /** Some of the nodes, each under its own id. */
  ghost predicate OwnIds(s: seq<Node>, nodes: map<string, Node>) {
    forall n :: n in s ==> n.id in nodes && nodes[n.id] == n
  }

  lemma RanksDistinct(c: seq<Node>, nodes: map<string, Node>, now: real, timeout: real)
    requires Ranks(c, nodes, now, timeout)
    ensures DistinctIds(c) && OwnIds(c, nodes)
  {
    forall i, j | 0 <= i < j < |c|
      ensures c[i].id != c[j].id
    {
      assert c[i] in c && c[j] in c;
      PrecedesTotal(c[i].id, c[i].id);
      assert Before(c[i], c[j]);
    }
  }

  lemma IdsOfOwn(s: seq<Node>, nodes: map<string, Node>)
    requires OwnIds(s, nodes) && NoDuplicates(s)
    ensures NoDuplicates(IdsOf(s)) && Elems(IdsOf(s)) <= nodes.Keys
    ensures forall n :: n in s <==> n.id in IdsOf(s) && n.id in nodes && nodes[n.id] == n
    ensures forall id :: id in IdsOf(s) ==> id in nodes && nodes[id] in s && nodes[id].id == id
    ensures ZonesOfIds(nodes, Elems(IdsOf(s))) == ZonesOf(s)
  {
    var ids := IdsOf(s);
    forall i | 0 <= i < |s|
      ensures s[i] in s && nodes[s[i].id] == s[i] && s[i].id in ids
    {
      assert ids[i] == s[i].id;
    }
    forall id | id in ids
      ensures id in nodes && nodes[id] in s && nodes[id].id == id
    {
      var i :| 0 <= i < |ids| && ids[i] == id;
      assert s[i].id == id;
    }
    forall z | z in ZonesOf(s)
      ensures z in ZonesOfIds(nodes, Elems(ids))
    {
      var n :| n in s && n.zone == z;
      assert n.id in Elems(ids);
    }
  }

  lemma LiveCount(c: seq<Node>, nodes: map<string, Node>, now: real, timeout: real)
    requires Ranks(c, nodes, now, timeout) && NodesNamed(nodes)
    ensures Elems(IdsOf(c)) == LiveIds(nodes, now, timeout) && |c| == |LiveIds(nodes, now, timeout)|
    ensures OwnIds(c, nodes) && DistinctIds(c) && LiveIds(nodes, now, timeout) <= nodes.Keys
    ensures ZonesOfIds(nodes, LiveIds(nodes, now, timeout)) == ZonesOf(c)
  {
    RanksDistinct(c, nodes, now, timeout);
    IdsOfOwn(c, nodes);
    forall id | id in LiveIds(nodes, now, timeout)
      ensures id in Elems(IdsOf(c))
    {
      assert nodes[id] in c;
    }
    assert Elems(IdsOf(c)) == LiveIds(nodes, now, timeout);
    DistinctCount(IdsOf(c));
  }

  lemma LeaderIsLeast(c: seq<Node>, nodes: map<string, Node>, now: real, timeout: real, id: string)
    requires Ranks(c, nodes, now, timeout) && NodesNamed(nodes) && c != []
    requires id in LiveIds(nodes, now, timeout) && id != c[0].id
    ensures c[0] in c && c[0].id in nodes && Before(nodes[c[0].id], nodes[id])
  {
    assert nodes[id] in c;
    var i :| 0 <= i < |c| && c[i] == nodes[id];
    assert nodes[c[0].id] == c[0] by { assert c[0] in c; }
  }

  lemma ChosenZones(c: seq<Node>, nodes: map<string, Node>, now: real, timeout: real, rf: nat)
    requires Ranks(c, nodes, now, timeout) && NodesNamed(nodes) && 1 <= rf <= |c|
    ensures |Preference(c)| == |c|
    ensures var chosen := Preference(c)[..rf];
            && OwnIds(chosen, nodes) && NoDuplicates(chosen) && chosen[0] == c[0]
            && |ZonesOf(chosen)| == Min(rf, |ZonesOfIds(nodes, LiveIds(nodes, now, timeout))|)
            && forall n :: n in chosen ==> n.id in LiveIds(nodes, now, timeout)
  {
    LiveCount(c, nodes, now, timeout);
    PreferenceIsWhole(c);
    ChosenCoverZones(c, rf);
    var p := Preference(c);
    forall n | n in p[..rf]
      ensures n in c
    {
      assert n in Elems(p);
    }
  }

  lemma PassedOver(c: seq<Node>, nodes: map<string, Node>, now: real, timeout: real, rf: nat, a: string, b: string)
    requires Ranks(c, nodes, now, timeout) && NodesNamed(nodes) && 1 <= rf <= |c|
    requires |Preference(c)| == |c| && a in nodes && b in nodes && nodes[a] in Preference(c)[..rf] && nodes[b] !in Preference(c)[..rf]
    requires b in LiveIds(nodes, now, timeout) && nodes[a].zone == nodes[b].zone
    ensures Before(nodes[a], nodes[b])
  {
    LiveCount(c, nodes, now, timeout);
    PreferenceIsWhole(c);
    var p := Preference(c);
    var k :| 0 <= k < rf && p[k] == nodes[a];
    assert nodes[b] in c;
    assert nodes[b] in Elems(p);
    var m :| 0 <= m < |p| && p[m] == nodes[b];
    assert forall q :: 0 <= q < rf ==> p[..rf][q] == p[q];
    PassedOverIsWorse(c, rf, k, m);
  }

  /** The first `rf` candidates in the order of preference are well placed. */
  lemma ChosenWellPlaced(c: seq<Node>, nodes: map<string, Node>, now: real, timeout: real, rf: nat)
    requires Ranks(c, nodes, now, timeout) && NodesNamed(nodes) && 1 <= rf <= |c|
    ensures |Preference(c)| == |c| && WellPlaced(IdsOf(Preference(c)[..rf]), nodes, now, timeout, rf)
  {
    ChosenZones(c, nodes, now, timeout, rf);
    var chosen := Preference(c)[..rf];
    var replicas, live := IdsOf(chosen), LiveIds(nodes, now, timeout);
    IdsOfOwn(chosen, nodes);
    assert c[0] in c;
    assert replicas[0] == c[0].id;
    forall id | id in live && id != replicas[0]
      ensures Before(nodes[replicas[0]], nodes[id])
    {
      LeaderIsLeast(c, nodes, now, timeout, id);
    }
    assert forall id :: id in live && nodes[id] in chosen ==> id in replicas;
    forall a, b | a in replicas && a in live && b in live && b !in replicas && nodes[a].zone == nodes[b].zone
      ensures Before(nodes[a], nodes[b])
    {
      PassedOver(c, nodes, now, timeout, rf, a, b);
    }
  }

  // ------------------------------------------------------------------- driver

  ghost predicate RegionGood(r: Region, k: Key, nodes: map<string, Node>, epoch: nat) {
    && r.space == k.space && r.name == k.name && k.space != "" && k.name != ""
    && r.replicas != [] && NoDuplicates(r.replicas) && Elems(r.replicas) <= nodes.Keys
    && r.leader == r.replicas[0] && 1 <= r.epoch <= epoch
  }

  ghost predicate RegionsGood(regions: map<Key, Region>, nodes: map<string, Node>, epoch: nat) {
    && (forall k :: k in regions ==> RegionGood(regions[k], k, nodes, epoch))
    && forall k, l :: k in regions && l in regions && k != l ==> regions[k].epoch != regions[l].epoch
  }

  class PlacementDriver {
    const timeout: real
    var order: seq<string>
    var nodes: map<string, Node>
    var regionOrder: seq<Key>
    var regions: map<Key, Region>
    var epoch: nat

    ghost predicate Valid()
      reads this
    {
      && NodesNamed(nodes) && Elems(order) == nodes.Keys && NoDuplicates(order)
      && Elems(regionOrder) == regions.Keys && RegionsGood(regions, nodes, epoch)
    }

    constructor (timeout: real)
      requires timeout > 0.0
      ensures Valid() && this.timeout == timeout && nodes == map[] && regions == map[] && epoch == 0
    {
      this.timeout, order, nodes, regionOrder, regions, epoch := timeout, [], map[], [], map[], 0;
    }

    /** A node registered again starts over with no load. */
    method Register(id: string, zone: string, capacity: int, now: real) returns (r: Result<(), Fault>)
      requires Valid()
      modifies this
      ensures Valid() && regions == old(regions) && epoch == old(epoch)
      ensures r.Ok? <==> id != "" && zone != "" && capacity >= 1
      ensures nodes == if r.Ok? then old(nodes)[id := Node(id, zone, capacity, 0.0, now, true)] else old(nodes)
      ensures r.Ok? ==> id in LiveIds(nodes, now, timeout) || timeout < 0.0
    {
      if id == "" || zone == "" || capacity < 1 { return Err(InvalidNode); }
      if id !in nodes { order := order + [id]; }
      nodes := nodes[id := Node(id, zone, capacity, 0.0, now, true)];
      return Ok(());
    }

    /** A negative load is refused only after the node was marked as heard from. */
    method Heartbeat(id: string, load: Option<real>, now: real) returns (r: Result<(), Fault>)
      requires Valid()
      modifies this
      ensures Valid() && regions == old(regions) && epoch == old(epoch)
      ensures r.Ok? <==> id in old(nodes) && (load.Some? ==> load.value >= 0.0)
      ensures id !in old(nodes) ==> nodes == old(nodes)
      ensures id in old(nodes) ==>
                nodes == old(nodes)[id := old(nodes)[id].(heartbeat := now, healthy := true,
                                                         load := if load.Some? && load.value >= 0.0 then load.value else old(nodes)[id].load)]
    {
      if id !in nodes { return Err(UnknownNode); }
      nodes := nodes[id := nodes[id].(heartbeat := now, healthy := true)];
      if load.Some? {
        if load.value < 0.0 { return Err(NegativeLoad); }
        nodes := nodes[id := nodes[id].(load := load.value)];
      }
      return Ok(());
    }

    method SetHealth(id: string, healthy: bool) returns (r: Result<(), Fault>)
      requires Valid()
      modifies this
      ensures Valid() && regions == old(regions) && epoch == old(epoch) && (r.Ok? <==> id in old(nodes))
      ensures nodes == if r.Ok? then old(nodes)[id := old(nodes)[id].(healthy := healthy)] else old(nodes)
    {
      if id !in nodes { return Err(UnknownNode); }
      nodes := nodes[id := nodes[id].(healthy := healthy)];
      return Ok(());
    }

    method Candidates(now: real) returns (sorted: seq<Node>)
      requires Valid()
      ensures Ranks(sorted, nodes, now, timeout) && |sorted| == |LiveIds(nodes, now, timeout)|
    {
      var live: seq<Node> := [];
      for i := 0 to |order|
        invariant DistinctIds(live)
        invariant forall n :: n in live ==> n.id in order[..i] && n.id in LiveIds(nodes, now, timeout) && nodes[n.id] == n
        invariant forall id :: id in order[..i] && id in LiveIds(nodes, now, timeout) ==> nodes[id] in live
      {
        var id := order[i];
        assert id in Elems(order);
        assert order[..i + 1] == order[..i] + [id];
        if Live(nodes[id], now, timeout) {
          assert forall k :: 0 <= k < |live| ==> live[k] in live;
          live := live + [nodes[id]];
        }
      }
      assert order[..|order|] == order;
      sorted := SortByLoad(live);
      forall n
        ensures n in sorted <==> n in live
      {
        assert n in Elems(sorted) <==> n in Elems(live);
      }
      forall id | id in LiveIds(nodes, now, timeout)
        ensures nodes[id] in sorted
      {
        assert id in Elems(order);
      }
      LiveCount(sorted, nodes, now, timeout);
    }

    /** Places a region afresh; a refused call changes nothing. */
    method Assign(space: string, name: string, rf: int, now: real) returns (r: Result<Region, Fault>)
      requires Valid()
      modifies this
      ensures Valid() && nodes == old(nodes)
      ensures r == Err(InvalidAssignment) <==> space == "" || name == "" || rf < 1
      ensures r == Err(Insufficient) <==> space != "" && name != "" && rf >= 1 && |LiveIds(nodes, now, timeout)| < rf
      ensures r.Err? ==> regions == old(regions) && epoch == old(epoch) && (r.error.InvalidAssignment? || r.error.Insufficient?)
      ensures r.Ok? ==> epoch == old(epoch) + 1 && regions == old(regions)[Key(space, name) := r.value]
      ensures r.Ok? ==> r.value == Region(space, name, r.value.replicas, r.value.leader, epoch) && r.value.replicas != [] && r.value.leader == r.value.replicas[0]
      ensures r.Ok? ==> WellPlaced(r.value.replicas, nodes, now, timeout, rf)
    {
      if space == "" || name == "" || rf < 1 { return Err(InvalidAssignment); }
      var candidates := Candidates(now);
      if |candidates| < rf { return Err(Insufficient); }
      LiveCount(candidates, nodes, now, timeout);
      var selected := Select(candidates, rf);
      ChosenWellPlaced(candidates, nodes, now, timeout, rf);
      var placed := Region(space, name, IdsOf(selected), selected[0].id, epoch + 1);
      Enter(Key(space, name), placed);
      return Ok(placed);
    }

    method Enter(k: Key, placed: Region)
      requires Valid() && placed.epoch == epoch + 1 && RegionGood(placed, k, nodes, epoch + 1)
      modifies this
      ensures Valid() && nodes == old(nodes) && epoch == old(epoch) + 1 && regions == old(regions)[k := placed]
    {
      epoch := epoch + 1;
      if k !in regions { regionOrder := regionOrder + [k]; }
      regions := regions[k := placed];
    }

    /** Places a region again with as many replicas as it has. */
    method Rebalance(k: Key, now: real) returns (r: Result<Region, Fault>)
      requires Valid()
      modifies this
      ensures Valid() && nodes == old(nodes)
      ensures r == Err(UnknownRegion) <==> k !in old(regions)
      ensures k in old(regions) ==> (r == Err(Insufficient) <==> r.Err?) && (r.Err? <==> |LiveIds(nodes, now, timeout)| < |old(regions)[k].replicas|)
      ensures r.Err? ==> regions == old(regions) && epoch == old(epoch)
      ensures r.Ok? ==> epoch == old(epoch) + 1 && regions == old(regions)[k := r.value] && r.value.epoch == epoch
      ensures r.Ok? ==> WellPlaced(r.value.replicas, nodes, now, timeout, |old(regions)[k].replicas|)
    {
      if k !in regions { return Err(UnknownRegion); }
      assert RegionGood(regions[k], k, nodes, epoch);
      r := Assign(k.space, k.name, |regions[k].replicas|, now);
    }

    method Survives(k: Key, now: real) returns (live: bool)
      requires Valid() && k in regions
      ensures live <==> AllLive(nodes, now, timeout, regions[k].replicas)
    {
      var ids := regions[k].replicas;
      assert RegionGood(regions[k], k, nodes, epoch);
      for i := 0 to |ids|
        invariant forall j :: 0 <= j < i ==> ids[j] in LiveIds(nodes, now, timeout)
      {
        assert ids[i] in Elems(ids);
        if !Live(nodes[ids[i]], now, timeout) { return false; }
      }
      return true;
    }

    /** Moves every region off its dead replicas. It succeeds exactly when each
        region that lost one is no larger than the number of live nodes; a region
        that lost none is not touched. */
    method Reconcile(now: real) returns (r: Result<seq<Region>, Fault>)
      requires Valid()
      modifies this
      ensures Valid() && nodes == old(nodes) && epoch >= old(epoch)
      ensures AllMoved(old(regions), regions, Clock(nodes, now, timeout), old(epoch))
      ensures r.Ok? ==> epoch == old(epoch) + |r.value| && forall k :: k in regions ==> AllLive(nodes, now, timeout, regions[k].replicas)
      ensures r.Ok? <==> forall k :: k in old(regions) ==> Movable(old(regions)[k], Clock(nodes, now, timeout))
    {
      ghost var was, e0, clock := regions, epoch, Clock(nodes, now, timeout);
      var keys := regionOrder;
      r := SweepRegions(keys, now);
      if r.Ok? {
        forall k | k in was
          ensures k in regions && AllLive(nodes, now, timeout, regions[k].replicas) && Movable(was[k], clock)
        {
          assert k in Elems(keys);
        }
      }
    }

    /** Takes the regions in order; stops at the first that cannot be moved. */
    method SweepRegions(keys: seq<Key>, now: real) returns (r: Result<seq<Region>, Fault>)
      requires Valid() && Elems(keys) == regions.Keys
      modifies this
      ensures Valid() && nodes == old(nodes) && epoch >= old(epoch)
      ensures AllMoved(old(regions), regions, Clock(nodes, now, timeout), old(epoch))
      ensures r.Ok? ==> epoch == old(epoch) + |r.value| && Swept(keys, |keys|, old(regions), regions, Clock(nodes, now, timeout))
      ensures r.Err? ==> exists k :: k in old(regions) && !Movable(old(regions)[k], Clock(nodes, now, timeout))
    {
      ghost var was, e0, clock := regions, epoch, Clock(nodes, now, timeout);
      var changed: seq<Region> := [];
      for i := 0 to |keys|
        invariant Valid() && nodes == old(nodes) && epoch == e0 + |changed|
        invariant AllMoved(was, regions, clock, e0) && Swept(keys, i, was, regions, clock)
      {
        assert keys[i] in Elems(keys) && keys[i] in regions;
        var moved := SweepOne(keys, i, now, was, e0);
        if moved.Err? { return Err(moved.error); }
        if moved.value.Some? { changed := changed + [moved.value.value]; }
      }
      return Ok(changed);
    }

    /** Looks at one region and moves it if it lost a replica. */
    method SweepOne(keys: seq<Key>, i: nat, now: real, ghost was: map<Key, Region>, ghost e0: nat) returns (r: Result<Option<Region>, Fault>)
      requires Valid() && i < |keys| && keys[i] in regions && e0 <= epoch
      requires AllMoved(was, regions, Clock(nodes, now, timeout), e0) && Swept(keys, i, was, regions, Clock(nodes, now, timeout))
      modifies this
      ensures Valid() && nodes == old(nodes) && epoch == old(epoch) + (if r.Ok? && r.value.Some? then 1 else 0)
      ensures AllMoved(was, regions, Clock(nodes, now, timeout), e0)
      ensures r.Ok? ==> Swept(keys, i + 1, was, regions, Clock(nodes, now, timeout))
      ensures r.Err? ==> keys[i] in was && !Movable(was[keys[i]], Clock(nodes, now, timeout))
    {
      ghost var clock := Clock(nodes, now, timeout);
      var k := keys[i];
      var live := Survives(k, now);
      if live {
        SweptLive(keys, i, was, regions, clock, e0);
        return Ok(None);
      }
      StuckRegion(was, regions, clock, e0, k);
      ghost var before := regions;
      var moved := Rebalance(k, now);
      if moved.Err? { return Err(moved.error); }
      SweptMoved(keys, i, was, before, clock, e0, moved.value);
      return Ok(Some(moved.value));
    }
  }

  /** The nodes as one clock reading sees them. */
  datatype Clock = Clock(nodes: map<string, Node>, now: real, timeout: real)

  ghost predicate Lives(r: Region, c: Clock) {
    AllLive(c.nodes, c.now, c.timeout, r.replicas)
  }

  /** A region that can stay, or be placed again at its size. */
  ghost predicate Movable(r: Region, c: Clock) {
    Lives(r, c) || |r.replicas| <= |LiveIds(c.nodes, c.now, c.timeout)|
  }

  /** Untouched if all its replicas live; otherwise untouched so far, or placed
      afresh at its size under a later epoch. */
  ghost predicate Moved(was: Region, r: Region, c: Clock, epoch: nat) {
    r == was || (!Lives(was, c) && r.epoch > epoch && |r.replicas| == |was.replicas| && WellPlaced(r.replicas, c.nodes, c.now, c.timeout, |was.replicas|))
  }

  ghost predicate AllMoved(was: map<Key, Region>, regions: map<Key, Region>, c: Clock, epoch: nat) {
    was.Keys == regions.Keys && forall k :: k in was ==> Moved(was[k], regions[k], c, epoch)
  }

  /** The first `n` regions live on live replicas only. */
  ghost predicate Swept(keys: seq<Key>, n: nat, was: map<Key, Region>, regions: map<Key, Region>, c: Clock) {
    n <= |keys| && forall i :: 0 <= i < n ==> keys[i] in was && keys[i] in regions && Lives(regions[keys[i]], c) && Movable(was[keys[i]], c)
  }

  lemma StuckRegion(was: map<Key, Region>, regions: map<Key, Region>, c: Clock, epoch: nat, k: Key)
    requires AllMoved(was, regions, c, epoch) && k in was && !Lives(regions[k], c)
    ensures regions[k] == was[k]
  {
    assert Moved(was[k], regions[k], c, epoch);
  }

  lemma SweptLive(keys: seq<Key>, n: nat, was: map<Key, Region>, regions: map<Key, Region>, c: Clock, epoch: nat)
    requires n < |keys| && Swept(keys, n, was, regions, c) && AllMoved(was, regions, c, epoch)
    requires keys[n] in was && Lives(regions[keys[n]], c)
    ensures Swept(keys, n + 1, was, regions, c)
  {
    var k := keys[n];
    assert Moved(was[k], regions[k], c, epoch);
    if !Lives(was[k], c) {
      SubsetCount(Elems(regions[k].replicas), LiveIds(c.nodes, c.now, c.timeout));
      DistinctCount(regions[k].replicas);
    }
  }

  lemma SweptMoved(keys: seq<Key>, n: nat, was: map<Key, Region>, before: map<Key, Region>, c: Clock, epoch: nat, r: Region)
    requires n < |keys| && Swept(keys, n, was, before, c) && AllMoved(was, before, c, epoch)
    requires keys[n] in was && !Lives(before[keys[n]], c)
    requires WellPlaced(r.replicas, c.nodes, c.now, c.timeout, |before[keys[n]].replicas|) && r.epoch > epoch
    requires |before[keys[n]].replicas| <= |LiveIds(c.nodes, c.now, c.timeout)|
    ensures AllMoved(was, before[keys[n] := r], c, epoch) && Swept(keys, n + 1, was, before[keys[n] := r], c)
  {
    var k := keys[n];
    StuckRegion(was, before, c, epoch, k);
    var after := before[k := r];
    assert Moved(was[k], r, c, epoch);
    forall l | l in was
      ensures Moved(was[l], after[l], c, epoch)
    {
      if l != k { assert Moved(was[l], before[l], c, epoch); }
    }
  }
}
