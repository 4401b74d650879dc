/** The result cache as an object, and histories of the whole stack. */
module PodCaches {
  import opened Prelude
  import opened Filters
  import opened SearchModel
  import opened SearchStores
  import opened PodCache

  class ResultCache {
    const cfg: Config
    var order: seq<CacheKey>
    var entries: map<CacheKey, Stored>
    var pinned: set<CacheKey>
    var inflight: set<CacheKey>
    var hits: nat
    var misses: nat
    var evictions: nat

    function State(): Cache
      reads this
    {
      Cache(order, entries, pinned, inflight)
    }

    ghost predicate Valid()
      reads this
    {
      CacheWell(cfg, State())
    }

    constructor (cfg: Config)
      requires cfg.maxEntries >= 1 && cfg.ttl > 0.0
      ensures Valid() && State() == EMPTY && this.cfg == cfg
    {
      this.cfg := cfg;
      order, entries, pinned, inflight := [], map[], {}, {};
      hits, misses, evictions := 0, 0, 0;
    }

    /** The position of the first entry that is not pinned, or the end. */
    method FindVictim() returns (i: nat)
      ensures i <= |order| && forall j :: 0 <= j < i ==> order[j] in pinned
      ensures i < |order| ==> order[i] !in pinned
    {
      i := 0;
      while i < |order| && order[i] in pinned
        invariant i <= |order| && forall j :: 0 <= j < i ==> order[j] in pinned
        decreases |order| - i
      {
        i := i + 1;
      }
    }

    method PopVictim(i: nat)
      requires NoDuplicates(order) && Elems(order) == entries.Keys
      requires i < |order| && order[i] !in pinned && forall j :: 0 <= j < i ==> order[j] in pinned
      modifies this`order, this`entries, this`evictions
      ensures order == DropOldest(old(order), pinned) && |order| == |old(order)| - 1
      ensures NoDuplicates(order) && Elems(order) == entries.Keys
      ensures forall k :: k in entries ==> k in old(entries) && entries[k] == old(entries)[k]
      ensures evictions == old(evictions) + 1
    {
      DropOldestAt(order, pinned, i);
      RemovedOne(order, i);
      entries := entries - {order[i]};
      order := order[..i] + order[i + 1..];
      evictions := evictions + 1;
    }

    /** Pops the first entry that is not pinned until the bound holds or only pins are left. */
    method Evict()
      requires NoDuplicates(order) && Elems(order) == entries.Keys
      modifies this`order, this`entries, this`evictions
      ensures State() == Restricted(old(State()), Evicted(old(order), pinned, cfg.maxEntries), pinned)
      ensures evictions - old(evictions) == |old(order)| - |order|
    {
      ghost var before, all := order, entries;
      while |order| > cfg.maxEntries
        invariant NoDuplicates(order) && Elems(order) == entries.Keys
        invariant Evicted(order, pinned, cfg.maxEntries) == Evicted(before, pinned, cfg.maxEntries)
        invariant forall k :: k in entries ==> k in all && entries[k] == all[k]
        invariant evictions - old(evictions) == |before| - |order|
        decreases |order|
      {
        var i := FindVictim();
        if i == |order| {
          assert Elems(order) <= pinned;
          break;
        }
        assert order[i] in Elems(order);
        PopVictim(i);
      }
      assert order == Evicted(before, pinned, cfg.maxEntries);
      SameRestriction(all, entries, order);
    }

    method ForgetAll(keys: set<CacheKey>)
      modifies this`order, this`entries, this`pinned
      ensures State() == Forget(old(State()), keys)
    {
      order := Without(order, keys);
      entries := map k | k in entries && k in order :: entries[k];
      pinned := pinned - keys;
    }

    /** A plain query is answered with the plain scan of the rows as they are now,
        wherever the answer comes from, unless evaluating its filter raises; the
        cache stays within bounds and coherent. */
    method Search(backend: SearchStore, q: Query, now: real) returns (r: Reply)
      requires Valid() && backend.Valid() && Coherent(backend.policy, backend.State(), State())
      requires inflight == {} && PlainQuery(q)
      modifies this, backend`filterCache
      ensures (r, State()) == CacheSearch(backend.policy, cfg, old(backend.State()), old(State()), q, now)
      ensures backend.State() == BackendAfter(backend.policy, cfg, old(backend.State()), old(State()), q, now)
      ensures r == Replied(Expected(backend.policy, backend.State(), q)) || Expected(backend.policy, backend.State(), q) == Err(FilterError)
      ensures Valid() && backend.Valid() && Coherent(backend.policy, backend.State(), State()) && inflight == {}
    {
      ghost var s, c := backend.State(), State();
      PlainIsPassed(q);
      CacheSearchKeeps(backend.policy, cfg, s, c, q, now);
      SearchIsPlainScan(backend.policy, s, BranchOf(q), q.request, Intended(q), q.principal);
      r := SearchInside(backend, q, now);
      CoherentAfter(backend.policy, s, backend.State(), State());
    }

    /** Any query. A caller that finds its key in flight waits; with nobody else
        running it waits for ever. */
    method SearchInside(backend: SearchStore, q: Query, now: real) returns (r: Reply)
      requires Valid() && backend.Valid()
      modifies this, backend`filterCache
      ensures (r, State()) == CacheSearch(backend.policy, cfg, old(backend.State()), old(State()), q, now)
      ensures backend.State() == BackendAfter(backend.policy, cfg, old(backend.State()), old(State()), q, now)
      ensures Valid()
      ensures hits + misses == old(hits + misses) + (if r.Blocked? || KeyFor(q, None).Err? then 0 else 1)
    {
      ghost var c := State();
      var revision := if q.namespace in backend.meta then Some(backend.meta[q.namespace].revision) else None;
      ForgetKeeps(cfg, c, StaleKeys(c, q.namespace, revision));
      ForgetAll(StaleKeys(State(), q.namespace, revision));
      var key := KeyFor(q, revision);
      if key.Err? { return Replied(Err(key.error)); }
      var k := key.value;
      if Fresh(cfg, State(), k, now) {
        TouchKeeps(cfg, State(), k);
        hits := hits + 1;
        order := Touched(order, k);
        return Replied(Ok(entries[k].result));
      }
      r := AskBackend(backend, q, k, now);
    }

    /** No fresh entry: the owner of the key asks the backend. */
    method AskBackend(backend: SearchStore, q: Query, k: CacheKey, now: real) returns (r: Reply)
      requires Valid() && backend.Valid()
      modifies this, backend`filterCache
      ensures (r, State()) == CacheMiss(backend.policy, cfg, old(backend.State()), old(State()), q, k, now)
      ensures backend.State() ==
        if old(k in inflight) || Passed(q).Err? then old(backend.State())
        else AfterSearch(backend.policy, old(backend.State()), BranchOf(q), DrainedRequest(q.request), Passed(q).value, q.principal)
      ensures Valid() && hits == old(hits) && misses == old(misses) + if r.Blocked? then 0 else 1
    {
      ghost var c := State();
      if k in inflight { return Blocked; }
      inflight, misses := inflight + {k}, misses + 1;
      var hard := Passed(q);
      if hard.Err? { return Replied(Err(hard.error)); }
      var answer := backend.Search(BranchOf(q), DrainedRequest(q.request), hard.value, q.principal);
      if answer.Ok? {
        StoredKeeps(cfg, State(), k, Stored(now, answer.value));
        StoreResult(k, Stored(now, answer.value));
      }
      inflight := inflight - {k};
      assert inflight == c.inflight;
      return Replied(answer);
    }

    method StoreResult(k: CacheKey, entry: Stored)
      requires CacheWell(cfg, State())
      modifies this`order, this`entries, this`evictions
      ensures State() == WithEntry(cfg, old(State()), k, entry)
    {
      TouchedDistinct(order, k);
      entries := entries[k := entry];
      order := Touched(order, k);
      Evict();
    }

    method Invalidate(sel: Selector) returns (removed: nat)
      requires Valid()
      modifies this
      ensures Valid() && State() == PodCache.Invalidate(old(State()), sel)
      ensures removed == |old(entries)| - |entries|
    {
      var keys := set k | k in order && Selected(sel, k);
      ForgetKeeps(cfg, State(), keys);
      ghost var before := entries;
      assert keys <= before.Keys by {
        forall k | k in keys
          ensures k in before
        {
          assert k in Elems(order);
        }
      }
      ForgetAll(keys);
      assert before.Keys == entries.Keys + keys;
      assert |before| == |before.Keys| && |entries| == |entries.Keys|;
      removed := |keys|;
    }

    /** Answers like a search and pins the entry. */
    method PinQuery(backend: SearchStore, q: Query, now: real) returns (r: Reply)
      requires Valid() && backend.Valid() && Coherent(backend.policy, backend.State(), State())
      requires inflight == {} && PlainQuery(q)
      modifies this, backend`filterCache
      ensures (r, State()) == CachePin(backend.policy, cfg, old(backend.State()), old(State()), q, now)
      ensures r == Replied(Expected(backend.policy, backend.State(), q)) || Expected(backend.policy, backend.State(), q) == Err(FilterError)
      ensures Valid() && backend.Valid() && Coherent(backend.policy, backend.State(), State()) && inflight == {}
    {
      CacheSearchKeeps(backend.policy, cfg, backend.State(), State(), q, now);
      PinQueryKeeps(backend.policy, cfg, World(backend.State(), State()), q, now);
      r := PinInside(backend, q, now);
    }

    /** Any query. The key of the entry to pin is computed from what is left of
        the arguments. */
    method PinInside(backend: SearchStore, q: Query, now: real) returns (r: Reply)
      requires Valid() && backend.Valid()
      modifies this, backend`filterCache
      ensures (r, State()) == CachePin(backend.policy, cfg, old(backend.State()), old(State()), q, now)
      ensures backend.State() == BackendAfter(backend.policy, cfg, old(backend.State()), old(State()), q, now)
      ensures Valid()
    {
      r := SearchInside(backend, q, now);
      if r.Replied? && r.result.Ok? {
        var key := KeyFor(DrainedQuery(q), if q.namespace in backend.meta then Some(backend.meta[q.namespace].revision) else None);
        if key.Ok? && key.value in entries { pinned := pinned + {key.value}; }
      }
    }

    method Unpin(sel: Selector) returns (removed: nat)
      requires Valid()
      modifies this
      ensures Valid() && State() == UnpinQueries(cfg, old(State()), sel)
      ensures removed == |set k | k in old(pinned) && Selected(sel, k)|
    {
      UnpinKeeps(cfg, State(), sel);
      var released := set k | k in pinned && Selected(sel, k);
      pinned := set k | k in pinned && !Selected(sel, k);
      removed := |released|;
      Evict();
    }
  }

  lemma SameRestriction(all: map<CacheKey, Stored>, kept: map<CacheKey, Stored>, order: seq<CacheKey>)
    requires Elems(order) == kept.Keys && forall k :: k in kept ==> k in all && kept[k] == all[k]
    ensures kept == map k | k in all && k in order :: all[k]
  {
    forall k
      ensures k in kept <==> k in all && k in order
    {
      assert k in order <==> k in Elems(order);
    }
  }

  lemma {:induction false} DropOldestAt(order: seq<CacheKey>, pinned: set<CacheKey>, i: nat)
    requires i < |order| && order[i] !in pinned && forall j :: 0 <= j < i ==> order[j] in pinned
    ensures DropOldest(order, pinned) == order[..i] + order[i + 1..]
    decreases |order|
  {
    if i > 0 {
      DropOldestAt(order[1..], pinned, i - 1);
      assert [order[0]] + order[1..][..i - 1] == order[..i];
    }
  }

  lemma RemovedOne(order: seq<CacheKey>, i: nat)
    requires i < |order| && NoDuplicates(order)
    ensures var kept := order[..i] + order[i + 1..];
            NoDuplicates(kept) && Elems(kept) == Elems(order) - {order[i]}
  {
    var kept := order[..i] + order[i + 1..];
    forall k
      ensures k in kept <==> k in order && k != order[i]
    {
      if k in order && k != order[i] {
        var j :| 0 <= j < |order| && order[j] == k;
        assert kept[if j < i then j else j - 1] == k;
      }
    }
  }

  // ---------------------------------------------------------------- histories

  datatype Op =
    | UpsertOp(b: BranchId, key: string, text: string, vector: Option<Vector>, metadata: Metadata)
    | PatchOp(b: BranchId, key: string, patch: Patch)
    | DeleteOp(b: BranchId, key: string)
    | NamespaceOp(b: BranchId)
    | BranchOp(namespace: string, source: string, target: string)
    | ConfigureOp(namespace: string, readOnly: bool)
    | PinOp(b: BranchId)
    | UnpinOp(b: BranchId)
    | SearchOp(b: BranchId, request: Request, filter: Filter, principal: Option<string>)
    | CachedSearchOp(q: Query, now: real)
    | PinQueryOp(q: Query, now: real)
    | UnpinQueriesOp(sel: Selector)
    | InvalidateOp(sel: Selector)

  datatype World = World(store: Store, cache: Cache)

  ghost predicate WorldInv(p: Policy, cfg: Config, w: World) {
    StoreInv(p, w.store) && CacheWell(cfg, w.cache) && Coherent(p, w.store, w.cache) && w.cache.inflight == {}
  }

  /** All searches of the history are plain. */
  predicate PlainOp(op: Op) {
    match op
    case SearchOp(_, _, filter, principal) => PlainCall(OrEmpty(filter.value), principal)
    case CachedSearchOp(q, _) => PlainQuery(q)
    case PinQueryOp(q, _) => PlainQuery(q)
    case _ => true
  }

  /** The store after an operation that only concerns the store. */
  ghost function StoreAfter(p: Policy, s: Store, op: Op): Store
    requires StoreInv(p, s)
  {
    match op
    case UpsertOp(b, key, text, vector, metadata) =>
      var r := Upsert(s, b, key, text, vector, metadata);
      if r.Ok? then r.value else s
    case PatchOp(b, key, patch) =>
      var r := PartialUpdate(s, b, key, patch);
      if r.Ok? then r.value.0 else s
    case DeleteOp(b, key) =>
      var r := Delete(s, b, key);
      if r.Ok? then r.value else s
    case NamespaceOp(b) => CreateNamespace(s, b)
    case BranchOp(namespace, source, target) =>
      var r := AddBranch(s, namespace, source, target);
      if r.Ok? then r.value else s
    case ConfigureOp(namespace, readOnly) =>
      var r := Configure(s, namespace, readOnly);
      if r.Ok? then r.value else s
    case PinOp(b) =>
      var r := Pin(s, b);
      if r.Ok? then r.value else s
    case UnpinOp(b) => SearchModel.Unpin(s, b)
    case SearchOp(b, request, filter, principal) => AfterSearch(p, s, b, request, filter, principal)
    case _ => s
  }

  ghost function ApplyOp(p: Policy, cfg: Config, w: World, op: Op): World
    requires WorldInv(p, cfg, w)
  {
    match op
    case CachedSearchOp(q, now) =>
      World(BackendAfter(p, cfg, w.store, w.cache, q, now), CacheSearch(p, cfg, w.store, w.cache, q, now).1)
    case PinQueryOp(q, now) =>
      World(BackendAfter(p, cfg, w.store, w.cache, q, now), CachePin(p, cfg, w.store, w.cache, q, now).1)
    case UnpinQueriesOp(sel) => w.(cache := UnpinQueries(cfg, w.cache, sel))
    case InvalidateOp(sel) => w.(cache := PodCache.Invalidate(w.cache, sel))
    case _ => w.(store := StoreAfter(p, w.store, op))
  }

  lemma StoreAfterKeeps(p: Policy, s: Store, op: Op)
    requires StoreInv(p, s) && PlainOp(op)
    ensures StoreInv(p, StoreAfter(p, s, op)) && RowsFollowRevisions(s, StoreAfter(p, s, op))
  {
    match op
    case UpsertOp(b, key, text, vector, metadata) =>
      if b in s.branches { WrittenKeeps(p, s, b, key, Item(text, vector, WithRevision(metadata), false)); }
    case PatchOp(b, key, patch) =>
      var r := PartialUpdate(s, b, key, patch);
      if r.Ok? { WrittenKeeps(p, s, b, key, Patched(Resolve(s.branches, s.items, b, key).value, patch)); }
    case DeleteOp(b, key) =>
      if b in s.branches { WrittenKeeps(p, s, b, key, Tombstone(s, b, key)); }
    case NamespaceOp(b) => CreateNamespaceKeeps(p, s, b);
    case BranchOp(namespace, source, target) =>
      if AddBranch(s, namespace, source, target).Ok? {
        NewBranchKeeps(p, s, BranchId(namespace, target), Some(source));
      }
    case ConfigureOp(namespace, readOnly) =>
      if Configure(s, namespace, readOnly).Ok? { ConfigureKeeps(p, s, namespace, readOnly); }
    case PinOp(b) => PinKeeps(p, s, b);
    case UnpinOp(b) => PinKeeps(p, s, b);
    case SearchOp(b, request, filter, principal) => SearchIsPlainScan(p, s, b, request, filter, principal);
    case _ =>
  }

  lemma ApplyKeeps(p: Policy, cfg: Config, w: World, op: Op)
    requires WorldInv(p, cfg, w) && PlainOp(op)
    ensures WorldInv(p, cfg, ApplyOp(p, cfg, w, op))
  {
    match op
    case CachedSearchOp(q, now) => CachedKeeps(p, cfg, w, q, now);
    case PinQueryOp(q, now) => PinQueryKeeps(p, cfg, w, q, now);
    case UnpinQueriesOp(sel) => UnpinKeeps(cfg, w.cache, sel);
    case InvalidateOp(sel) => ForgetKeeps(cfg, w.cache, set k | k in w.cache.order && Selected(sel, k));
    case _ => StoreOpKeeps(p, cfg, w, op);
  }

  lemma StoreOpKeeps(p: Policy, cfg: Config, w: World, op: Op)
    requires WorldInv(p, cfg, w) && PlainOp(op)
    ensures WorldInv(p, cfg, w.(store := StoreAfter(p, w.store, op)))
  {
    StoreAfterKeeps(p, w.store, op);
    CoherentAfter(p, w.store, StoreAfter(p, w.store, op), w.cache);
  }

  lemma CachedKeeps(p: Policy, cfg: Config, w: World, q: Query, now: real)
    requires WorldInv(p, cfg, w) && PlainQuery(q)
    ensures WorldInv(p, cfg, World(BackendAfter(p, cfg, w.store, w.cache, q, now), CacheSearch(p, cfg, w.store, w.cache, q, now).1))
  {
    PlainIsPassed(q);
    CacheSearchKeeps(p, cfg, w.store, w.cache, q, now);
    SearchIsPlainScan(p, w.store, BranchOf(q), q.request, Intended(q), q.principal);
    CoherentAfter(p, w.store, BackendAfter(p, cfg, w.store, w.cache, q, now), CacheSearch(p, cfg, w.store, w.cache, q, now).1);
  }

  lemma PinQueryKeeps(p: Policy, cfg: Config, w: World, q: Query, now: real)
    requires WorldInv(p, cfg, w) && PlainQuery(q)
    ensures WorldInv(p, cfg, World(BackendAfter(p, cfg, w.store, w.cache, q, now), CachePin(p, cfg, w.store, w.cache, q, now).1))
  {
    var key := KeyFor(DrainedQuery(q), RevisionIn(w.store, q.namespace));
    CachedKeeps(p, cfg, w, q, now);
    if key.Ok? {
      PinnedKeeps(p, cfg, World(BackendAfter(p, cfg, w.store, w.cache, q, now), CacheSearch(p, cfg, w.store, w.cache, q, now).1), key.value);
    }
  }

  lemma PinnedKeeps(p: Policy, cfg: Config, w: World, k: CacheKey)
    requires WorldInv(p, cfg, w)
    ensures WorldInv(p, cfg, w.(cache := PinKey(w.cache, k)))
  {
    FewerCoherent(p, w.store, w.cache, PinKey(w.cache, k));
  }

  /** The world after a history, started empty. */
  ghost function History(p: Policy, cfg: Config, ops: seq<Op>): (w: World)
    requires forall i :: 0 <= i < |ops| ==> PlainOp(ops[i])
    ensures WorldInv(p, cfg, w)
    decreases |ops|
  {
    if ops == [] then
      InitialInv(p);
      World(INITIAL, EMPTY)
    else
      var before := History(p, cfg, ops[..|ops| - 1]);
      ApplyKeeps(p, cfg, before, ops[|ops| - 1]);
      ApplyOp(p, cfg, before, ops[|ops| - 1])
  }

  /** After every history of writes, branching, pins and plain searches, a plain
      query through the cache returns what filtering and scoring the resolved rows
      would, whenever that answers. */
  lemma CachedSearchIsPlainScan(p: Policy, cfg: Config, ops: seq<Op>, q: Query, now: real)
    requires (forall i :: 0 <= i < |ops| ==> PlainOp(ops[i])) && PlainQuery(q)
    ensures var w := History(p, cfg, ops);
            CacheSearch(p, cfg, w.store, w.cache, q, now).0 == Replied(Expected(p, w.store, q)) || Expected(p, w.store, q) == Err(FilterError)
  {
    var w := History(p, cfg, ops);
    CacheSearchKeeps(p, cfg, w.store, w.cache, q, now);
  }

  /** After every history each pinned snapshot equals fresh resolution, and the
      cache holds at most its bound or pinned entries only. */
  lemma HistoryBounds(p: Policy, cfg: Config, ops: seq<Op>)
    requires forall i :: 0 <= i < |ops| ==> PlainOp(ops[i])
    ensures var w := History(p, cfg, ops);
            && PinsFresh(w.store)
            && (|w.cache.entries| <= cfg.maxEntries || w.cache.entries.Keys <= w.cache.pinned)
  {
    var w := History(p, cfg, ops);
    DistinctCount(w.cache.order);
    assert |w.cache.entries| == |w.cache.entries.Keys|;
  }
}
