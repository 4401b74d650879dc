/** The bounded breadth-first walk over typed relations between knowledge keys. */
module Relations {
  import opened Prelude
  import opened Lineage
  import opened RegistryStore

  datatype RelationEdge = RelationEdge(source: string, name: string, target: string)

  const MAX_HOPS := 16
  const NODE_LIMIT := 1000

  predicate Follows(r: Relation, names: set<string>) {
    r.name.Some? && r.name.value in names && r.target.Some? && r.target.value != ""
  }

  /** The matching relations among a payload's list, in order. */
  function Matching(key: string, relations: seq<Relation>, names: set<string>): (edges: seq<RelationEdge>)
    ensures forall e :: e in edges ==> e.source == key
  {
    if relations == [] then []
    else
      var r := relations[0];
      (if Follows(r, names) then [RelationEdge(key, r.name.value, r.target.value)] else [])
      + Matching(key, relations[1..], names)
  }

  /** The outgoing edges of a key at its current generation. */
  function Outgoing(db: Db, names: set<string>, key: string): seq<RelationEdge> {
    if key in db.heads && db.heads[key].node in db.nodes && db.nodes[db.heads[key].node].payload.Knowledge? then
      Matching(key, db.nodes[db.heads[key].node].payload.semantic.relations, names)
    else []
  }

  /** At most n steps of a relation lead from root to target. */
  ghost predicate Chain(leads: (string, string) -> bool, root: string, target: string, n: nat)
    decreases n
  {
    || target == root
    || (n > 0 && exists e {:trigger leads(e, target)} :: Chain(leads, root, e, n - 1) && leads(e, target))
  }

  lemma {:induction false} ChainMonotone(leads: (string, string) -> bool, root: string, target: string, m: nat, n: nat)
    requires m <= n && Chain(leads, root, target, m)
    ensures Chain(leads, root, target, n)
    decreases m
  {
    if target != root {
      var e :| Chain(leads, root, e, m - 1) && leads(e, target);
      ChainMonotone(leads, root, e, m - 1, n - 1);
    }
  }

  /** A table of depths that every step respects bounds the depth of all chains. */
  lemma {:induction false} ChainIsDeepEnough(leads: (string, string) -> bool, root: string, target: string, n: nat,
                                             depth: map<string, nat>, bound: nat)
    requires n <= bound && Chain(leads, root, target, n) && root in depth && depth[root] == 0
    requires forall v, t :: v in depth && depth[v] < bound && leads(v, t) ==> t in depth && depth[t] <= depth[v] + 1
    ensures target in depth && depth[target] <= n
    decreases n
  {
    if target != root {
      var e :| Chain(leads, root, e, n - 1) && leads(e, target);
      ChainIsDeepEnough(leads, root, e, n - 1, depth, bound);
    }
  }

  ghost function Leads(db: Db, names: set<string>): (string, string) -> bool {
    (source: string, target: string) => LeadsTo(db, names, source, target)
  }

  /** target can be reached from root over at most n relations. */
  ghost predicate Within(db: Db, names: set<string>, root: string, target: string, n: nat) {
    Chain(Leads(db, names), root, target, n)
  }

  lemma WithinStep(db: Db, names: set<string>, root: string, source: string, target: string, n: nat)
    requires Within(db, names, root, source, n) && LeadsTo(db, names, source, target)
    ensures Within(db, names, root, target, n + 1)
  {
    assert Leads(db, names)(source, target);
  }

  ghost predicate LeadsTo(db: Db, names: set<string>, source: string, target: string) {
    exists i :: 0 <= i < |Outgoing(db, names, source)| && Outgoing(db, names, source)[i].target == target
  }

  /** n is the length of a shortest chain of relations from root to target. */
  ghost predicate Distance(db: Db, names: set<string>, root: string, target: string, n: nat) {
    Within(db, names, root, target, n) && forall m: nat :: m < n ==> !Within(db, names, root, target, m)
  }

  lemma WithinMonotone(db: Db, names: set<string>, root: string, target: string, m: nat, n: nat)
    requires m <= n && Within(db, names, root, target, m)
    ensures Within(db, names, root, target, n)
  {
    ChainMonotone(Leads(db, names), root, target, m, n);
  }

  /** The edges of the keys in visiting order, leaving out those too far away to expand. */
  ghost function EdgesInOrder(db: Db, names: set<string>, order: seq<string>, depth: map<string, nat>, maxHops: nat): seq<RelationEdge> {
    if order == [] then []
    else
      var last := order[|order| - 1];
      EdgesInOrder(db, names, order[..|order| - 1], depth, maxHops)
      + (if last in depth && depth[last] < maxHops then Outgoing(db, names, last) else [])
  }

  lemma {:induction false} EdgesInOrderFrame(db: Db, names: set<string>, order: seq<string>, depth: map<string, nat>,
                                             key: string, d: nat, maxHops: nat)
    requires key !in order
    ensures EdgesInOrder(db, names, order, depth[key := d], maxHops) == EdgesInOrder(db, names, order, depth, maxHops)
    decreases |order|
  {
    if order != [] {
      EdgesInOrderFrame(db, names, order[..|order| - 1], depth, key, d, maxHops);
    }
  }

  datatype Visit = Visit(key: string, depth: nat)

  /** Queue depths never decrease and span at most one level. */
  ghost predicate Layered(queue: seq<Visit>) {
    && (forall i, j :: 0 <= i < j < |queue| ==> queue[i].depth <= queue[j].depth)
    && (forall i :: 0 <= i < |queue| ==> queue[i].depth <= queue[0].depth + 1)
  }

  ghost predicate Queued(queue: seq<Visit>, key: string, depth: nat) {
    exists i :: 0 <= i < |queue| && queue[i].key == key && queue[i].depth <= depth
  }

  /** Whatever a visited key leads to is visited or waiting, at most one level further. */
  ghost predicate Covered(db: Db, names: set<string>, queue: seq<Visit>, depth: map<string, nat>, maxHops: nat) {
    forall v, t :: v in depth && depth[v] < maxHops && LeadsTo(db, names, v, t) ==>
      (t in depth && depth[t] <= depth[v] + 1) || Queued(queue, t, depth[v] + 1)
  }

  ghost predicate RootCovered(root: string, queue: seq<Visit>, depth: map<string, nat>) {
    (root in depth && depth[root] == 0) || Queued(queue, root, 0)
  }

  /** Everything nearer than the front of the queue has been visited, at its distance. */
  lemma NearerIsVisited(db: Db, names: set<string>, root: string, queue: seq<Visit>,
                        depth: map<string, nat>, maxHops: nat, target: string, n: nat)
    requires Covered(db, names, queue, depth, maxHops) && RootCovered(root, queue, depth)
    requires forall i :: 0 <= i < |queue| ==> n < queue[i].depth
    requires n <= maxHops && Within(db, names, root, target, n)
    ensures target in depth && depth[target] <= n
  {
    forall v, t | v in depth && depth[v] < n && Leads(db, names)(v, t)
      ensures t in depth && depth[t] <= depth[v] + 1
    {
      assert LeadsTo(db, names, v, t);
      assert !Queued(queue, t, depth[v] + 1);
    }
    ChainIsDeepEnough(Leads(db, names), root, target, n, depth, n);
  }

  datatype Walk = Walk(order: seq<string>, generations: map<string, Id>, edges: seq<RelationEdge>)

  /** A key the walk cannot pin: no head, or a head the principal may not use. */
  ghost predicate Unusable(db: Db, key: string, principal: string, now: int) {
    key !in db.heads || !IsValid(db, db.heads[key].node, principal, now)
  }

  /** What a completed walk has seen: exactly the keys within reach, each once,
      in order of distance, at their current heads, with every edge of the keys
      that still had a hop left recorded once. */
  ghost predicate WalkExact(db: Db, names: set<string>, root: string, maxHops: nat, w: Walk, depth: map<string, nat>) {
    && NoDuplicates(w.order)
    && (forall k :: k in w.order <==> Within(db, names, root, k, maxHops))
    && (forall k :: k in w.order <==> k in depth)
    && (forall k :: k in depth ==> Distance(db, names, root, k, depth[k]))
    && (forall i, j :: 0 <= i < j < |w.order| ==> depth[w.order[i]] <= depth[w.order[j]])
    && (forall k :: k in w.generations <==> k in w.order)
    && (forall k :: k in w.order ==> k in db.heads && w.generations[k] == db.heads[k].node)
    && w.edges == EdgesInOrder(db, names, w.order, depth, maxHops)
  }

  /** Appends the matching relations of one node to the edge list and the queue. */
  method Expand(key: string, depth: nat, relations: seq<Relation>, names: set<string>, queue: seq<Visit>, edges: seq<RelationEdge>)
      returns (queue': seq<Visit>, edges': seq<RelationEdge>)
    ensures edges' == edges + Matching(key, relations, names)
    ensures |queue'| == |queue| + |Matching(key, relations, names)| && queue'[..|queue|] == queue
    ensures forall i :: 0 <= i < |Matching(key, relations, names)| ==>
              queue'[|queue| + i] == Visit(Matching(key, relations, names)[i].target, depth + 1)
  {
    queue', edges' := queue, edges;
    ghost var found := [];
    for i := 0 to |relations|
      invariant Matching(key, relations, names) == found + Matching(key, relations[i..], names)
      invariant edges' == edges + found
      invariant |queue'| == |queue| + |found| && queue'[..|queue|] == queue
      invariant forall j :: 0 <= j < |found| ==> queue'[|queue| + j] == Visit(found[j].target, depth + 1)
    {
      var r := relations[i];
      assert relations[i..][0] == r && relations[i..][1..] == relations[i + 1..];
      if Follows(r, names) {
        var e := RelationEdge(key, r.name.value, r.target.value);
        edges' := edges' + [e];
        queue' := queue' + [Visit(r.target.value, depth + 1)];
        found := found + [e];
      }
    }
  }

  /** The visiting order lists the visited keys once, nearest first. */
  ghost predicate NearestFirst(order: seq<string>, depth: map<string, nat>) {
    && NoDuplicates(order) && depth.Keys == Elems(order)
    && forall i, j :: 0 <= i < j < |order| ==> depth[order[i]] <= depth[order[j]]
  }

  ghost predicate Pinned(db: Db, generations: map<string, Id>, principal: string, now: int) {
    forall k :: k in generations ==>
      k in db.heads && generations[k] == db.heads[k].node && !Unusable(db, k, principal, now)
  }

  ghost predicate Shortest(db: Db, names: set<string>, root: string, maxHops: nat, depth: map<string, nat>) {
    forall k :: k in depth ==> depth[k] <= maxHops && Distance(db, names, root, k, depth[k])
  }

  /** The keys visited so far, in the order the result dictionary keeps. */
  ghost predicate VisitedWell(db: Db, names: set<string>, root: string, maxHops: nat, principal: string, now: int,
                              w: Walk, depth: map<string, nat>) {
    && NearestFirst(w.order, depth)
    && w.generations.Keys == depth.Keys
    && Shortest(db, names, root, maxHops, depth)
    && Pinned(db, w.generations, principal, now)
    && w.edges == EdgesInOrder(db, names, w.order, depth, maxHops)
  }

  /** The queue in relation to the visited keys. */
  ghost predicate QueuedWell(db: Db, names: set<string>, root: string, maxHops: nat, queue: seq<Visit>, depth: map<string, nat>) {
    && Layered(queue)
    && (forall i :: 0 <= i < |queue| ==> queue[i].depth <= maxHops && Within(db, names, root, queue[i].key, queue[i].depth))
    && (forall k, i :: k in depth && 0 <= i < |queue| ==> depth[k] <= queue[i].depth)
    && Covered(db, names, queue, depth, maxHops) && RootCovered(root, queue, depth)
  }

  /** The current head of a key, provided the principal may read it. */
  method PinHead(registry: Registry, key: string, principal: string, now: int) returns (r: Result<Id, Error>)
    requires EndpointsKnown(registry.Tables())
    ensures r.Ok? <==> !Unusable(registry.Tables(), key, principal, now)
    ensures r.Ok? ==> r.value == registry.heads[key].node
  {
    if key !in registry.heads { return Err(InvalidState); }
    var node := registry.heads[key].node;
    var usable := registry.TakeSnapshot([node], principal, now);
    SingleAccepted(registry.Tables(), key, node, principal, now);
    return if usable then Ok(node) else Err(InvalidState);
  }

  lemma OutgoingOfHead(db: Db, names: set<string>, key: string)
    requires HeadsKnown(db) && key in db.heads
    ensures db.heads[key].node in db.nodes && db.nodes[db.heads[key].node].payload.Knowledge?
    ensures Outgoing(db, names, key) == Matching(key, db.nodes[db.heads[key].node].payload.semantic.relations, names)
  {
  }

  /** Takes a new key off the queue and, if a hop is left, queues what it leads to. */
  method ExpandFront(registry: Registry, names: set<string>, ghost root: string, maxHops: nat,
                     queue: seq<Visit>, node: Id, edges: seq<RelationEdge>, ghost depth: map<string, nat>)
      returns (queue': seq<Visit>, edges': seq<RelationEdge>)
    requires HeadsKnown(registry.Tables())
    requires queue != [] && queue[0].depth <= maxHops && queue[0].key !in depth
    requires queue[0].key in registry.heads && node == registry.heads[queue[0].key].node
    requires QueuedWell(registry.Tables(), names, root, maxHops, queue, depth)
    ensures edges' == edges + if queue[0].depth < maxHops then Outgoing(registry.Tables(), names, queue[0].key) else []
    ensures QueuedWell(registry.Tables(), names, root, maxHops, queue', depth[queue[0].key := queue[0].depth])
  {
    ghost var db := registry.Tables();
    if queue[0].depth < maxHops {
      OutgoingOfHead(db, names, queue[0].key);
      queue', edges' := Expand(queue[0].key, queue[0].depth, registry.nodes[node].payload.semantic.relations,
                               names, queue[1..], edges);
      ExpandedKeeps(db, names, root, queue, queue', depth, maxHops);
    } else {
      queue', edges' := queue[1..], edges;
      LeafKeeps(db, names, root, queue, depth, maxHops);
    }
  }

  method VisitAll(registry: Registry, root: string, names: set<string>, maxHops: int, principal: string, now: int)
      returns (r: Result<Walk, Error>, ghost depth: map<string, nat>)
    requires EndpointsKnown(registry.Tables()) && HeadsKnown(registry.Tables())
    ensures r.Ok? ==> 0 <= maxHops <= MAX_HOPS && WalkExact(registry.Tables(), names, root, maxHops, r.value, depth)
    ensures r.Ok? ==> |r.value.order| <= NODE_LIMIT
    ensures r.Ok? ==> forall k :: k in r.value.order ==> !Unusable(registry.Tables(), k, principal, now)
    ensures r.Err? ==> Refused(registry.Tables(), names, root, maxHops, principal, now)
  {
    depth := map[];
    if !(0 <= maxHops <= MAX_HOPS) { return Err(ValueError), depth; }
    ghost var db := registry.Tables();
    var queue := [Visit(root, 0)];
    var w := Walk([], map[], []);
    assert queue[0].key == root && Queued(queue, root, 0);
    while queue != []
      invariant VisitedWell(db, names, root, maxHops, principal, now, w, depth)
      invariant QueuedWell(db, names, root, maxHops, queue, depth)
      invariant |w.order| <= NODE_LIMIT
      decreases NODE_LIMIT - |w.order|, |queue|
    {
      FrontFacts(db, names, root, queue, depth, maxHops);
      if queue[0].key in w.generations {
        SkipKeeps(db, names, root, queue, depth, maxHops);
        queue := queue[1..];
        continue;
      }
      var pinned := PinHead(registry, queue[0].key, principal, now);
      if pinned.Err? { return Err(InvalidState), depth; }
      ghost var deeper := depth[queue[0].key := queue[0].depth];
      var key, edges := queue[0].key, w.edges;
      NewKeyVisited(db, names, root, maxHops, principal, now, key, queue[0].depth, w, depth);
      queue, edges := ExpandFront(registry, names, root, maxHops, queue, pinned.value, edges, depth);
      w := Walk(w.order + [key], w.generations[key := pinned.value], edges);
      depth := deeper;
      if |w.order| > NODE_LIMIT {
        OverLimit(db, names, root, w.order, depth, maxHops);
        return Err(InvalidState), depth;
      }
    }
    WalkComplete(db, names, root, maxHops, principal, now, w, depth);
    return Ok(w), depth;
  }

  /** The walk, and one snapshot over all it pinned. */
  method WalkRelations(registry: Registry, root: string, names: set<string>, maxHops: int, principal: string, now: int)
      returns (r: Result<Walk, Error>, ghost depth: map<string, nat>)
    requires EndpointsKnown(registry.Tables()) && HeadsKnown(registry.Tables())
    ensures r.Ok? ==> 0 <= maxHops <= MAX_HOPS && WalkExact(registry.Tables(), names, root, maxHops, r.value, depth)
    ensures r.Ok? ==> |r.value.order| <= NODE_LIMIT
    ensures r.Ok? ==> forall k :: k in r.value.order ==> !Unusable(registry.Tables(), k, principal, now)
    ensures r.Ok? ==> Accepted(registry.Tables(), set k | k in r.value.generations :: r.value.generations[k], principal, now)
    ensures r.Err? ==> Refused(registry.Tables(), names, root, maxHops, principal, now)
  {
    r, depth := VisitAll(registry, root, names, maxHops, principal, now);
    if r.Ok? {
      ghost var db := registry.Tables();
      var pins := PinsInOrder(r.value);
      PinsAccepted(db, names, root, maxHops, principal, now, r.value, depth, pins);
      assert Elems(pins) == set k | k in r.value.generations :: r.value.generations[k];
      var usable := registry.TakeSnapshot(pins, principal, now);
      if !usable { return Err(InvalidState), depth; }
    }
  }

  /** The pinned generations in the order of the visits. */
  method PinsInOrder(w: Walk) returns (pins: seq<Id>)
    requires forall k :: k in w.generations <==> k in w.order
    ensures forall n :: n in pins <==> exists k :: k in w.generations && w.generations[k] == n
    ensures |pins| == |w.order|
  {
    pins := [];
    for i := 0 to |w.order|
      invariant |pins| == i
      invariant forall j :: 0 <= j < i ==> w.order[j] in w.generations && pins[j] == w.generations[w.order[j]]
    {
      assert w.order[i] in w.order;
      pins := pins + [w.generations[w.order[i]]];
    }
    forall k | k in w.generations
      ensures w.generations[k] in pins
    {
      var i :| 0 <= i < |w.order| && w.order[i] == k;
      assert pins[i] == w.generations[k];
    }
    forall n | n in pins
      ensures exists k :: k in w.generations && w.generations[k] == n
    {
      var i :| 0 <= i < |pins| && pins[i] == n;
      assert w.order[i] in w.generations;
    }
  }

  /** The heads pinned one by one are together a consistent snapshot. */
  lemma PinsAccepted(db: Db, names: set<string>, root: string, maxHops: nat, principal: string, now: int, w: Walk, depth: map<string, nat>, pins: seq<Id>)
    requires WalkExact(db, names, root, maxHops, w, depth) && forall k :: k in w.order ==> !Unusable(db, k, principal, now)
    requires forall n :: n in pins <==> exists k :: k in w.generations && w.generations[k] == n
    ensures Accepted(db, Elems(pins), principal, now)
  {
    WithinMonotone(db, names, root, root, 0, maxHops);
    assert root in w.generations;
    assert w.generations[root] in Elems(pins);
    forall n | n in Elems(pins)
      ensures IsValid(db, n, principal, now)
    {
      var k :| k in w.generations && w.generations[k] == n;
    }
  }

  /** The walk refuses a bad hop bound, a key within reach that cannot be
      pinned, and more than NODE_LIMIT keys within reach; nothing else. */
  ghost predicate Refused(db: Db, names: set<string>, root: string, maxHops: int, principal: string, now: int) {
    || !(0 <= maxHops <= MAX_HOPS)
    || (exists k :: Within(db, names, root, k, maxHops) && Unusable(db, k, principal, now))
    || TooMany(db, names, root, maxHops)
  }

  ghost predicate TooMany(db: Db, names: set<string>, root: string, maxHops: nat) {
    exists ks: set<string> :: |ks| > NODE_LIMIT && forall k :: k in ks ==> Within(db, names, root, k, maxHops)
  }

  lemma WalkComplete(db: Db, names: set<string>, root: string, maxHops: nat, principal: string, now: int, w: Walk, depth: map<string, nat>)
    requires VisitedWell(db, names, root, maxHops, principal, now, w, depth)
    requires QueuedWell(db, names, root, maxHops, [], depth)
    ensures WalkExact(db, names, root, maxHops, w, depth)
    ensures forall k :: k in w.order ==> !Unusable(db, k, principal, now)
  {
    forall k | Within(db, names, root, k, maxHops)
      ensures k in w.order
    {
      NearerIsVisited(db, names, root, [], depth, maxHops, k, maxHops);
      assert k in Elems(w.order);
    }
    forall k | k in w.order
      ensures k in depth && k in w.generations && Within(db, names, root, k, maxHops)
    {
      assert k in Elems(w.order);
      WithinMonotone(db, names, root, k, depth[k], maxHops);
    }
    forall k | k in depth || k in w.generations
      ensures k in w.order
    {
      assert k in Elems(w.order);
    }
  }

  /** The front of the queue is within reach and, if new, at its distance. */
  lemma FrontFacts(db: Db, names: set<string>, root: string, queue: seq<Visit>, depth: map<string, nat>, maxHops: nat)
    requires queue != [] && QueuedWell(db, names, root, maxHops, queue, depth)
    ensures queue[0].depth <= maxHops && Within(db, names, root, queue[0].key, maxHops)
    ensures forall k :: k in depth ==> depth[k] <= queue[0].depth
    ensures queue[0].key !in depth ==> Distance(db, names, root, queue[0].key, queue[0].depth)
  {
    WithinMonotone(db, names, root, queue[0].key, queue[0].depth, maxHops);
    if queue[0].key !in depth {
      NewKeyDistance(db, names, root, queue, depth, maxHops);
    }
  }

  lemma SingleAccepted(db: Db, key: string, node: Id, principal: string, now: int)
    requires key in db.heads && db.heads[key].node == node
    ensures Accepted(db, Elems([node]), principal, now) <==> !Unusable(db, key, principal, now)
  {
    assert Elems([node]) == {node};
  }

  /** Visiting a new key at its distance keeps what is known of the visited ones. */
  lemma NewKeyVisited(db: Db, names: set<string>, root: string, maxHops: nat, principal: string, now: int,
                      key: string, d: nat, w: Walk, depth: map<string, nat>)
    requires VisitedWell(db, names, root, maxHops, principal, now, w, depth)
    requires key !in depth && d <= maxHops && Distance(db, names, root, key, d) && !Unusable(db, key, principal, now)
    requires forall k :: k in depth ==> depth[k] <= d
    ensures var edges := w.edges + if d < maxHops then Outgoing(db, names, key) else [];
            VisitedWell(db, names, root, maxHops, principal, now,
                        Walk(w.order + [key], w.generations[key := db.heads[key].node], edges), depth[key := d])
  {
    NewKeyLast(w.order, depth, key, d);
    PinnedOneMore(db, w.generations, key, principal, now);
    ShortestOneMore(db, names, root, maxHops, depth, key, d);
    EdgesOneMore(db, names, w.order, depth, key, d, maxHops);
  }

  lemma PinnedOneMore(db: Db, generations: map<string, Id>, key: string, principal: string, now: int)
    requires Pinned(db, generations, principal, now) && !Unusable(db, key, principal, now)
    ensures Pinned(db, generations[key := db.heads[key].node], principal, now)
  {
  }

  lemma ShortestOneMore(db: Db, names: set<string>, root: string, maxHops: nat, depth: map<string, nat>, key: string, d: nat)
    requires Shortest(db, names, root, maxHops, depth) && d <= maxHops && Distance(db, names, root, key, d)
    ensures Shortest(db, names, root, maxHops, depth[key := d])
  {
  }

  lemma EdgesOneMore(db: Db, names: set<string>, order: seq<string>, depth: map<string, nat>, key: string, d: nat, maxHops: nat)
    requires key !in order
    ensures EdgesInOrder(db, names, order + [key], depth[key := d], maxHops)
         == EdgesInOrder(db, names, order, depth, maxHops) + if d < maxHops then Outgoing(db, names, key) else []
  {
    EdgesInOrderFrame(db, names, order, depth, key, d, maxHops);
    var longer := order + [key];
    assert longer[..|longer| - 1] == order;
  }

  lemma NewKeyLast(order: seq<string>, depth: map<string, nat>, key: string, d: nat)
    requires NearestFirst(order, depth) && key !in depth && forall k :: k in depth ==> depth[k] <= d
    ensures NearestFirst(order + [key], depth[key := d]) && key !in order
  {
    var longer := order + [key];
    assert forall i :: 0 <= i < |order| ==> order[i] in Elems(order);
    assert key !in Elems(order);
    assert Elems(longer) == Elems(order) + {key};
    forall i, j | 0 <= i < j < |longer|
      ensures depth[key := d][longer[i]] <= depth[key := d][longer[j]]
    {
      assert longer[i] == order[i] && order[i] in Elems(order);
      if j < |order| { assert longer[j] == order[j] && order[j] in Elems(order); }
    }
  }

  lemma SkipKeeps(db: Db, names: set<string>, root: string, queue: seq<Visit>, depth: map<string, nat>, maxHops: nat)
    requires queue != [] && QueuedWell(db, names, root, maxHops, queue, depth) && queue[0].key in depth
    ensures QueuedWell(db, names, root, maxHops, queue[1..], depth)
  {
    PopVisited(db, names, root, queue, depth, maxHops);
  }

  lemma LeafKeeps(db: Db, names: set<string>, root: string, queue: seq<Visit>, depth: map<string, nat>, maxHops: nat)
    requires queue != [] && QueuedWell(db, names, root, maxHops, queue, depth)
    requires queue[0].key !in depth && queue[0].depth == maxHops
    ensures QueuedWell(db, names, root, maxHops, queue[1..], depth[queue[0].key := queue[0].depth])
  {
    NewKeyCovered(db, names, root, queue, queue[1..], depth, maxHops);
  }

  lemma ExpandedKeeps(db: Db, names: set<string>, root: string, before: seq<Visit>, queue: seq<Visit>,
                      depth: map<string, nat>, maxHops: nat)
    requires before != [] && QueuedWell(db, names, root, maxHops, before, depth)
    requires before[0].key !in depth && before[0].depth < maxHops
    requires var out := Outgoing(db, names, before[0].key);
             && |queue| == |before| - 1 + |out| && queue[..|before| - 1] == before[1..]
             && forall i :: 0 <= i < |out| ==> queue[|before| - 1 + i] == Visit(out[i].target, before[0].depth + 1)
    ensures QueuedWell(db, names, root, maxHops, queue, depth[before[0].key := before[0].depth])
  {
    ExpandedQueue(db, names, root, before, queue, depth, maxHops);
    var key, after := before[0].key, depth[before[0].key := before[0].depth];
    forall k, i | k in after && 0 <= i < |queue|
      ensures after[k] <= queue[i].depth
    {
      if k != key { assert depth[k] <= before[0].depth; }
    }
  }

  lemma PopVisited(db: Db, names: set<string>, root: string, queue: seq<Visit>, depth: map<string, nat>, maxHops: nat)
    requires queue != [] && queue[0].key in depth && Layered(queue)
    requires depth[queue[0].key] <= queue[0].depth
    requires Covered(db, names, queue, depth, maxHops) && RootCovered(root, queue, depth)
    ensures Layered(queue[1..]) && Covered(db, names, queue[1..], depth, maxHops) && RootCovered(root, queue[1..], depth)
  {
    var rest := queue[1..];
    forall v, t | v in depth && depth[v] < maxHops && LeadsTo(db, names, v, t)
      ensures (t in depth && depth[t] <= depth[v] + 1) || Queued(rest, t, depth[v] + 1)
    {
      if !(t in depth && depth[t] <= depth[v] + 1) {
        PopQueued(queue, t, depth[v] + 1);
      }
    }
    if !(root in depth && depth[root] == 0) {
      PopQueued(queue, root, 0);
    }
  }

  lemma PopQueued(queue: seq<Visit>, key: string, depth: nat)
    requires queue != [] && Queued(queue, key, depth)
    ensures Queued(queue[1..], key, depth) || (queue[0].key == key && queue[0].depth <= depth)
  {
    var i :| 0 <= i < |queue| && queue[i].key == key && queue[i].depth <= depth;
    if i > 0 { assert queue[1..][i - 1] == queue[i]; }
  }

  /** A key taken from the front for the first time is at its shortest distance. */
  lemma NewKeyDistance(db: Db, names: set<string>, root: string, queue: seq<Visit>, depth: map<string, nat>, maxHops: nat)
    requires queue != [] && queue[0].key !in depth && Layered(queue) && queue[0].depth <= maxHops
    requires Covered(db, names, queue, depth, maxHops) && RootCovered(root, queue, depth)
    requires Within(db, names, root, queue[0].key, queue[0].depth)
    ensures Distance(db, names, root, queue[0].key, queue[0].depth)
  {
    forall m: nat | m < queue[0].depth
      ensures !Within(db, names, root, queue[0].key, m)
    {
      if Within(db, names, root, queue[0].key, m) {
        NearerIsVisited(db, names, root, queue, depth, maxHops, queue[0].key, m);
      }
    }
  }

  /** The front key has been visited; `queue` holds the rest, possibly with its targets appended. */
  lemma NewKeyCovered(db: Db, names: set<string>, root: string, before: seq<Visit>, queue: seq<Visit>,
                      depth: map<string, nat>, maxHops: nat)
    requires before != [] && Layered(before) && before[0].key !in depth
    requires |before| - 1 <= |queue| && queue[..|before| - 1] == before[1..]
    requires Covered(db, names, before, depth, maxHops) && RootCovered(root, before, depth)
    requires before[0].depth < maxHops ==> forall t :: LeadsTo(db, names, before[0].key, t) ==> Queued(queue, t, before[0].depth + 1)
    ensures Covered(db, names, queue, depth[before[0].key := before[0].depth], maxHops)
    ensures RootCovered(root, queue, depth[before[0].key := before[0].depth])
    ensures |queue| == |before| - 1 ==> Layered(queue)
  {
    var key, after := before[0].key, depth[before[0].key := before[0].depth];
    forall v, t | v in after && after[v] < maxHops && LeadsTo(db, names, v, t)
      ensures (t in after && after[t] <= after[v] + 1) || Queued(queue, t, after[v] + 1)
    {
      if v != key && !(t in depth && depth[t] <= depth[v] + 1) {
        PopQueued(before, t, depth[v] + 1);
        KeepQueued(before, queue, t, depth[v] + 1);
      }
    }
    RootStaysCovered(root, before, queue, depth);
  }

  lemma RootStaysCovered(root: string, before: seq<Visit>, queue: seq<Visit>, depth: map<string, nat>)
    requires before != [] && before[0].key !in depth && RootCovered(root, before, depth)
    requires |before| - 1 <= |queue| && queue[..|before| - 1] == before[1..]
    ensures RootCovered(root, queue, depth[before[0].key := before[0].depth])
  {
    if Queued(before, root, 0) {
      PopQueued(before, root, 0);
      KeepQueued(before, queue, root, 0);
    }
  }

  lemma KeepQueued(before: seq<Visit>, queue: seq<Visit>, key: string, depth: nat)
    requires before != [] && |before| - 1 <= |queue| && queue[..|before| - 1] == before[1..]
    ensures Queued(before[1..], key, depth) ==> Queued(queue, key, depth)
  {
    if Queued(before[1..], key, depth) {
      var i :| 0 <= i < |before[1..]| && before[1..][i].key == key && before[1..][i].depth <= depth;
      assert queue[i] == queue[..|before| - 1][i];
    }
  }

  lemma ExpandedQueue(db: Db, names: set<string>, root: string, before: seq<Visit>, queue: seq<Visit>,
                      depth: map<string, nat>, maxHops: nat)
    requires before != [] && Layered(before) && before[0].key !in depth && before[0].depth < maxHops
    requires Covered(db, names, before, depth, maxHops) && RootCovered(root, before, depth)
    requires var out := Outgoing(db, names, before[0].key);
             && |queue| == |before| - 1 + |out| && queue[..|before| - 1] == before[1..]
             && forall i :: 0 <= i < |out| ==> queue[|before| - 1 + i] == Visit(out[i].target, before[0].depth + 1)
    requires forall i :: 0 <= i < |before| ==> before[i].depth <= maxHops && Within(db, names, root, before[i].key, before[i].depth)
    ensures Covered(db, names, queue, depth[before[0].key := before[0].depth], maxHops)
    ensures RootCovered(root, queue, depth[before[0].key := before[0].depth])
    ensures Layered(queue)
    ensures forall i :: 0 <= i < |queue| ==> before[0].depth <= queue[i].depth
    ensures forall i :: 0 <= i < |queue| ==> queue[i].depth <= maxHops && Within(db, names, root, queue[i].key, queue[i].depth)
  {
    var key, d, out, n := before[0].key, before[0].depth, Outgoing(db, names, before[0].key), |before| - 1;
    forall t | LeadsTo(db, names, key, t)
      ensures Queued(queue, t, d + 1)
    {
      var i :| 0 <= i < |out| && out[i].target == t;
      assert queue[n + i].key == t;
    }
    NewKeyCovered(db, names, root, before, queue, depth, maxHops);
    forall i | 0 <= i < |queue|
      ensures d <= queue[i].depth <= d + 1 && queue[i].depth <= maxHops
      ensures Within(db, names, root, queue[i].key, queue[i].depth)
      ensures i >= n ==> queue[i].depth == d + 1
      ensures i < n ==> queue[i] == before[i + 1]
    {
      if i < n {
        assert queue[i] == queue[..n][i] == before[1..][i];
      } else {
        assert queue[n + (i - n)] == Visit(out[i - n].target, d + 1);
        assert LeadsTo(db, names, key, queue[i].key);
        WithinStep(db, names, root, key, queue[i].key, d);
      }
    }
  }

  lemma OverLimit(db: Db, names: set<string>, root: string, order: seq<string>, depth: map<string, nat>, maxHops: nat)
    requires NoDuplicates(order) && |order| > NODE_LIMIT
    requires depth.Keys == Elems(order) && Shortest(db, names, root, maxHops, depth)
    ensures TooMany(db, names, root, maxHops)
  {
    DistinctCount(order);
    forall k | k in Elems(order)
      ensures Within(db, names, root, k, maxHops)
    {
      WithinMonotone(db, names, root, k, depth[k], maxHops);
    }
  }
}
