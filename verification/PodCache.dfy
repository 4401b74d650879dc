/** The bounded result cache in front of the search store, and the agreement
    of the whole stack with a plain scan over every sequential history. */
module PodCache {
  import opened Prelude
  import opened Filters
  import opened SearchModel

  datatype Query = Query(
    namespace: string, branch: string, podType: Option<string>, tags: Supply<seq<string>>, request: Request,
    filter: Filter, principal: Option<string>, generation: Option<string>)

  /** A cache key: what a query shows, filters as text, and the namespace revision
      it was asked at. */
  datatype CacheKey = CacheKey(
    namespace: string, branch: string, podType: Option<string>, tags: seq<string>, text: string, vector: Option<Vector>,
    filter: string, principal: Option<string>, generation: Option<string>, rankProfile: Option<string>, topK: int,
    revision: Option<nat>)

  datatype Stored = Stored(at: real, result: seq<Hit>)

  /** Entries in order of last use, oldest first, and the keys being searched for. */
  datatype Cache = Cache(order: seq<CacheKey>, entries: map<CacheKey, Stored>, pinned: set<CacheKey>, inflight: set<CacheKey>)

  datatype Config = Config(maxEntries: nat, ttl: real)

  const EMPTY := Cache([], map[], {}, {})

  /** A search replies, or waits for ever for another one to finish. */
  datatype Reply = Replied(result: Result<seq<Hit>, Error>) | Blocked

  function BranchOf(q: Query): BranchId {
    BranchId(q.namespace, q.branch)
  }

  /** What is left of an argument that has been read. */
  function Drained<T>(x: Supply<seq<T>>): Supply<seq<T>> {
    if x.Once? then Once([]) else x
  }

  function DrainedRequest(r: Request): Request {
    if r.vector.Some? then r.(vector := Some(Drained(r.vector.value))) else r
  }

  function DrainedQuery(q: Query): Query {
    q.(tags := Drained(q.tags), request := DrainedRequest(q.request))
  }

  function KeyFor(q: Query, revision: Option<nat>): Result<CacheKey, Error> {
    var text := FilterText(OrEmpty(q.filter.value), true);
    if text.Err? then Err(text.error)
    else
      Ok(CacheKey(q.namespace, q.branch, q.podType, Sorted(q.tags.items), q.request.text,
                  if q.request.vector.Some? then Some(q.request.vector.value.items) else None,
                  text.value, q.principal, q.generation, q.request.rankProfile, q.request.topK, revision))
  }

  function ContainsAll(tags: seq<string>): Value {
    Dict([Entry(Name("contains"), Texts(Sorted(tags)))])
  }

  /** Pod type and tags become hard filters on top of the caller's. An argument
      that can be read only once counts as tags even when nothing is left of it. */
  function Hardened(entries: seq<Entry>, podType: Option<string>, tags: Supply<seq<string>>): seq<Entry> {
    var typed := if podType.Some? then Put(entries, Name("type"), Text(podType.value)) else entries;
    if tags.Once? || tags.items != [] then Put(typed, Name("tags"), ContainsAll(tags.items)) else typed
  }

  function InsertionOrder(q: Query): seq<Key> {
    q.filter.order + (if q.podType.Some? && Name("type") !in q.filter.order then [Name("type")] else [])
                   + (if (q.tags.Once? || q.tags.items != []) && Name("tags") !in q.filter.order then [Name("tags")] else [])
  }

  /** The filter that reaches the backend: the caller's must convert to a mapping,
      and the tags were read once already. */
  function Passed(q: Query): Result<Filter, Error> {
    var entries := AsMapping(OrEmpty(q.filter.value));
    if entries.Err? then Err(entries.error)
    else Ok(Filter(Dict(Hardened(entries.value, q.podType, Drained(q.tags))), InsertionOrder(q)))
  }

  /** The filter the caller means: its own, and the pod type, and all of the tags. */
  function Intended(q: Query): Filter {
    var v := OrEmpty(q.filter.value);
    if v.Dict? then Filter(Dict(Hardened(v.entries, q.podType, Again(q.tags.items))), InsertionOrder(q))
    else if q.podType.None? && q.tags.items == [] then q.filter
    else Filter(List([Text("and"), List([v, Dict(Hardened([], q.podType, Again(q.tags.items)))])]), InsertionOrder(q))
  }

  function RevisionIn(s: Store, namespace: string): Option<nat> {
    if namespace in s.meta then Some(s.meta[namespace].revision) else None
  }

  /** What an uncached, unpinned search would return. */
  ghost function Expected(p: Policy, s: Store, q: Query): Result<seq<Hit>, Error>
    requires Tree(s.branches)
  {
    PlainScan(p, s, BranchOf(q), q.request, Intended(q), q.principal)
  }

  /** The same if evaluating the filter does not raise. */
  ghost function Meant(p: Policy, s: Store, q: Query): Result<seq<Hit>, Error>
    requires Tree(s.branches)
  {
    Matching(p, s, BranchOf(q), q.request, Intended(q).value, q.principal)
  }

  /** A mapping filter that prints like no other, arguments that can be read
      again, and nothing that the key does not show. */
  predicate PlainQuery(q: Query) {
    && OrEmpty(q.filter.value).Dict? && PlainCall(OrEmpty(q.filter.value), q.principal)
    && q.tags.Again? && (q.request.vector.Some? ==> q.request.vector.value.Again?) && q.request.unkeyed == ""
  }

  // ------------------------------------------------------------------ order

  function Without(order: seq<CacheKey>, keys: set<CacheKey>): (kept: seq<CacheKey>)
    ensures forall k :: k in kept <==> k in order && k !in keys
    ensures |kept| <= |order|
  {
    if order == [] then []
    else (if order[0] in keys then [] else [order[0]]) + Without(order[1..], keys)
  }

  lemma {:induction false} WithoutDistinct(order: seq<CacheKey>, keys: set<CacheKey>)
    requires NoDuplicates(order)
    ensures NoDuplicates(Without(order, keys))
    decreases |order|
  {
    if order != [] {
      assert NoDuplicates(order[1..]);
      WithoutDistinct(order[1..], keys);
      assert order[0] !in order[1..];
    }
  }

  /** The entry becomes the most recently used one. */
  function Touched(order: seq<CacheKey>, k: CacheKey): seq<CacheKey> {
    Without(order, {k}) + [k]
  }

  lemma TouchedDistinct(order: seq<CacheKey>, k: CacheKey)
    requires NoDuplicates(order)
    ensures NoDuplicates(Touched(order, k)) && Elems(Touched(order, k)) == Elems(order) + {k}
  {
    WithoutDistinct(order, {k});
  }

  /** Drops the oldest entry that is not pinned. */
  function DropOldest(order: seq<CacheKey>, pinned: set<CacheKey>): seq<CacheKey> {
    if order == [] then []
    else if order[0] !in pinned then order[1..]
    else [order[0]] + DropOldest(order[1..], pinned)
  }

  lemma HeadAndRest(order: seq<CacheKey>)
    requires order != [] && NoDuplicates(order)
    ensures NoDuplicates(order[1..]) && order[0] !in order[1..] && Elems(order) == {order[0]} + Elems(order[1..])
  {
    assert order == [order[0]] + order[1..];
  }

  lemma {:induction false} DropOldestShrinks(order: seq<CacheKey>, pinned: set<CacheKey>)
    requires NoDuplicates(order) && !(Elems(order) <= pinned)
    ensures |DropOldest(order, pinned)| == |order| - 1 && NoDuplicates(DropOldest(order, pinned))
    ensures exists k :: k in order && k !in pinned && Elems(DropOldest(order, pinned)) == Elems(order) - {k}
    decreases |order|
  {
    var rest := order[1..];
    HeadAndRest(order);
    if order[0] !in pinned {
      assert Elems(rest) == Elems(order) - {order[0]};
    } else {
      DropOldestShrinks(rest, pinned);
      var k :| k in rest && k !in pinned && Elems(DropOldest(rest, pinned)) == Elems(rest) - {k};
      var kept := [order[0]] + DropOldest(rest, pinned);
      assert Elems(kept) == {order[0]} + (Elems(rest) - {k});
      assert k in order && Elems(kept) == Elems(order) - {k};
      assert order[0] !in Elems(DropOldest(rest, pinned));
    }
  }

  /** Least-recently-used eviction that spares pinned entries. */
  ghost function Evicted(order: seq<CacheKey>, pinned: set<CacheKey>, max: nat): seq<CacheKey>
    requires NoDuplicates(order)
    decreases |order|
  {
    if |order| <= max || Elems(order) <= pinned then order
    else
      DropOldestShrinks(order, pinned);
      Evicted(DropOldest(order, pinned), pinned, max)
  }

  lemma {:induction false} EvictedBound(order: seq<CacheKey>, pinned: set<CacheKey>, max: nat)
    requires NoDuplicates(order)
    ensures var kept := Evicted(order, pinned, max);
            && NoDuplicates(kept) && Elems(kept) <= Elems(order) && Elems(order) * pinned <= Elems(kept)
            && (|kept| <= max || Elems(kept) <= pinned)
            && |kept| >= (if |order| <= max then |order| else max)
    decreases |order|
  {
    if !(|order| <= max || Elems(order) <= pinned) {
      DropOldestShrinks(order, pinned);
      EvictedBound(DropOldest(order, pinned), pinned, max);
    }
  }

  lemma {:induction false} DropOldestIsOldest(order: seq<CacheKey>, pinned: set<CacheKey>, aged: CacheKey, newer: CacheKey)
    requires NoDuplicates(order) && UsedBefore(order, aged, newer) && aged !in pinned
    ensures aged in DropOldest(order, pinned) ==> UsedBefore(DropOldest(order, pinned), aged, newer)
    decreases |order|
  {
    var rest := order[1..];
    assert NoDuplicates(rest);
    var i, j :| 0 <= i < j < |order| && order[i] == aged && order[j] == newer;
    if i > 0 {
      assert rest[i - 1] == aged && rest[j - 1] == newer;
      if order[0] in pinned {
        DropOldestIsOldest(rest, pinned, aged, newer);
        if aged in DropOldest(rest, pinned) { UsedBeforeBehind(order[0], DropOldest(rest, pinned), aged, newer); }
      }
    } else {
      assert aged !in rest;
    }
  }

  lemma UsedBeforeBehind(head: CacheKey, kept: seq<CacheKey>, aged: CacheKey, newer: CacheKey)
    requires UsedBefore(kept, aged, newer)
    ensures UsedBefore([head] + kept, aged, newer)
  {
    var m, n :| 0 <= m < n < |kept| && kept[m] == aged && kept[n] == newer;
    assert ([head] + kept)[m + 1] == aged && ([head] + kept)[n + 1] == newer;
  }

  ghost predicate UsedBefore(order: seq<CacheKey>, aged: CacheKey, newer: CacheKey) {
    exists i, j :: 0 <= i < j < |order| && order[i] == aged && order[j] == newer
  }

  /** Of two unpinned entries the more recently used one is never evicted before the other. */
  lemma {:induction false} EvictionIsLeastRecent(order: seq<CacheKey>, pinned: set<CacheKey>, max: nat, aged: CacheKey, newer: CacheKey)
    requires NoDuplicates(order) && UsedBefore(order, aged, newer) && aged !in pinned
    requires aged in Evicted(order, pinned, max)
    ensures newer in Evicted(order, pinned, max)
    decreases |order|
  {
    if !(|order| <= max || Elems(order) <= pinned) {
      DropOldestShrinks(order, pinned);
      EvictedBound(DropOldest(order, pinned), pinned, max);
      assert aged in Elems(Evicted(DropOldest(order, pinned), pinned, max));
      assert aged in Elems(DropOldest(order, pinned));
      DropOldestIsOldest(order, pinned, aged, newer);
      EvictionIsLeastRecent(DropOldest(order, pinned), pinned, max, aged, newer);
    }
  }

  // ------------------------------------------------------------- operations

  function Restricted(c: Cache, order: seq<CacheKey>, pinned: set<CacheKey>): Cache {
    c.(order := order, entries := map k | k in c.entries && k in order :: c.entries[k], pinned := pinned)
  }

  /** Forgets a set of entries together with their pins. */
  function Forget(c: Cache, keys: set<CacheKey>): Cache {
    Restricted(c, Without(c.order, keys), c.pinned - keys)
  }

  function StaleKeys(c: Cache, namespace: string, revision: Option<nat>): set<CacheKey> {
    if revision.None? then {}
    else set k | k in c.order && k.namespace == namespace && k.revision != revision
  }

  function DropStale(c: Cache, namespace: string, revision: Option<nat>): Cache {
    Forget(c, StaleKeys(c, namespace, revision))
  }

  predicate Fresh(cfg: Config, c: Cache, k: CacheKey, now: real) {
    k in c.entries && now - c.entries[k].at < cfg.ttl
  }

  /** Storing a result makes its entry the newest and evicts down to the bound. */
  ghost function WithEntry(cfg: Config, c: Cache, k: CacheKey, entry: Stored): Cache
    requires NoDuplicates(c.order)
  {
    TouchedDistinct(c.order, k);
    Restricted(c.(entries := c.entries[k := entry]), Evicted(Touched(c.order, k), c.pinned, cfg.maxEntries), c.pinned)
  }

  /** A search through the cache. */
  ghost function CacheSearch(p: Policy, cfg: Config, s: Store, c: Cache, q: Query, now: real): (Reply, Cache)
    requires Tree(s.branches) && NoDuplicates(c.order)
  {
    var revision := RevisionIn(s, q.namespace);
    var current := DropStale(c, q.namespace, revision);
    var key := KeyFor(q, revision);
    if key.Err? then (Replied(Err(key.error)), current)
    else if Fresh(cfg, current, key.value, now) then
      (Replied(Ok(current.entries[key.value].result)), current.(order := Touched(current.order, key.value)))
    else
      WithoutDistinct(c.order, StaleKeys(c, q.namespace, revision));
      CacheMiss(p, cfg, s, current, q, key.value, now)
  }

  /** Without a fresh entry: the key is marked as in flight before the filter is
      converted, and stays so when that raises. */
  ghost function CacheMiss(p: Policy, cfg: Config, s: Store, c: Cache, q: Query, k: CacheKey, now: real): (Reply, Cache)
    requires Tree(s.branches) && NoDuplicates(c.order)
  {
    if k in c.inflight then (Blocked, c)
    else if Passed(q).Err? then (Replied(Err(Passed(q).error)), c.(inflight := c.inflight + {k}))
    else
      var answer := Forwarded(p, s, q);
      (Replied(answer), if answer.Err? then c else WithEntry(cfg, c, k, Stored(now, answer.value)))
  }

  /** The search the cache sends to the backend. */
  ghost function Forwarded(p: Policy, s: Store, q: Query): Result<seq<Hit>, Error>
    requires Tree(s.branches) && Passed(q).Ok?
  {
    BackendSearch(p, s, BranchOf(q), DrainedRequest(q.request), Passed(q).value, q.principal)
  }

  /** Whether the cache goes through to the backend. */
  predicate Missed(cfg: Config, s: Store, c: Cache, q: Query, now: real) {
    var revision := RevisionIn(s, q.namespace);
    var key := KeyFor(q, revision);
    key.Ok? && !Fresh(cfg, DropStale(c, q.namespace, revision), key.value, now) && key.value !in c.inflight && Passed(q).Ok?
  }

  /** The backend after a cached search: untouched on a hit. */
  ghost function BackendAfter(p: Policy, cfg: Config, s: Store, c: Cache, q: Query, now: real): Store
    requires Tree(s.branches)
  {
    if Missed(cfg, s, c, q, now) then AfterSearch(p, s, BranchOf(q), DrainedRequest(q.request), Passed(q).value, q.principal) else s
  }

  function PinKey(c: Cache, k: CacheKey): Cache {
    if k in c.entries then c.(pinned := c.pinned + {k}) else c
  }

  /** Searches and pins the entry of the query, whose key is computed once more. */
  ghost function CachePin(p: Policy, cfg: Config, s: Store, c: Cache, q: Query, now: real): (Reply, Cache)
    requires Tree(s.branches) && NoDuplicates(c.order)
  {
    var (reply, after) := CacheSearch(p, cfg, s, c, q, now);
    var key := KeyFor(DrainedQuery(q), RevisionIn(s, q.namespace));
    (reply, if reply.Replied? && reply.result.Ok? && key.Ok? then PinKey(after, key.value) else after)
  }

  /** Which entries `invalidate` and `unpin` address. */
  datatype Selector = Selector(namespace: Option<string>, branch: Option<string>, podType: Option<string>, tags: set<string>)

  predicate Selected(sel: Selector, k: CacheKey) {
    && (sel.namespace.Some? ==> k.namespace == sel.namespace.value)
    && (sel.branch.Some? ==> k.branch == sel.branch.value)
    && (sel.podType.Some? ==> k.podType == sel.podType)
    && (sel.tags != {} ==> sel.tags * Elems(k.tags) != {})
  }

  function Invalidate(c: Cache, sel: Selector): Cache {
    Forget(c, set k | k in c.order && Selected(sel, k))
  }

  ghost function UnpinQueries(cfg: Config, c: Cache, sel: Selector): Cache
    requires NoDuplicates(c.order)
  {
    var pinned := set k | k in c.pinned && !Selected(sel, k);
    Restricted(c, Evicted(c.order, pinned, cfg.maxEntries), pinned)
  }

  // -------------------------------------------------------------- invariant

  /** The order lists the entries once each, pins are entries, and the size is
      within bounds unless everything left is pinned. */
  ghost predicate CacheWell(cfg: Config, c: Cache) {
    && NoDuplicates(c.order) && Elems(c.order) == c.entries.Keys && c.pinned <= c.entries.Keys
    && (|c.order| <= cfg.maxEntries || c.entries.Keys <= c.pinned)
  }

  /** An entry at the current revision holds what each plain query of its key means now. */
  ghost predicate Coherent(p: Policy, s: Store, c: Cache)
    requires Tree(s.branches)
  {
    forall k :: k in c.entries ==>
      && (k.revision.Some? ==> k.namespace in s.meta && k.revision.value <= s.meta[k.namespace].revision)
      && (k.revision == RevisionIn(s, k.namespace) ==> forall q :: Keyed(q, k) ==> Meant(p, s, q) == Ok(c.entries[k].result))
  }

  predicate Keyed(q: Query, k: CacheKey) {
    PlainQuery(q) && KeyFor(q, k.revision) == Ok(k)
  }

  lemma ForgetKeeps(cfg: Config, c: Cache, keys: set<CacheKey>)
    requires CacheWell(cfg, c)
    ensures CacheWell(cfg, Forget(c, keys))
    ensures forall k :: k in Forget(c, keys).entries ==> k in c.entries && Forget(c, keys).entries[k] == c.entries[k]
    ensures Forget(c, keys).entries.Keys == c.entries.Keys - keys
  {
    WithoutDistinct(c.order, keys);
    forall k | k in c.entries
      ensures k in c.order
    {
      assert k in Elems(c.order);
    }
    forall k | k in c.order
      ensures k in c.entries
    {
      assert k in Elems(c.order);
    }
  }

  lemma TouchKeeps(cfg: Config, c: Cache, k: CacheKey)
    requires CacheWell(cfg, c) && k in c.entries
    ensures CacheWell(cfg, c.(order := Touched(c.order, k)))
  {
    TouchedDistinct(c.order, k);
    assert Elems(c.order) + {k} == Elems(c.order);
    DistinctCount(c.order);
    DistinctCount(Touched(c.order, k));
  }

  lemma RestrictKeeps(cfg: Config, c: Cache, order: seq<CacheKey>, pinned: set<CacheKey>)
    requires NoDuplicates(order) && Elems(order) <= c.entries.Keys && pinned <= Elems(order)
    requires |order| <= cfg.maxEntries || Elems(order) <= pinned
    ensures CacheWell(cfg, Restricted(c, order, pinned))
  {
    var after := Restricted(c, order, pinned);
    forall k
      ensures k in after.entries <==> k in Elems(order)
    {
    }
    assert after.entries.Keys == Elems(order);
  }

  lemma StoredKeeps(cfg: Config, c: Cache, k: CacheKey, entry: Stored)
    requires CacheWell(cfg, c)
    ensures CacheWell(cfg, WithEntry(cfg, c, k, entry))
  {
    TouchedDistinct(c.order, k);
    EvictedBound(Touched(c.order, k), c.pinned, cfg.maxEntries);
    RestrictKeeps(cfg, c.(entries := c.entries[k := entry]), Evicted(Touched(c.order, k), c.pinned, cfg.maxEntries), c.pinned);
  }

  lemma UnpinKeeps(cfg: Config, c: Cache, sel: Selector)
    requires CacheWell(cfg, c)
    ensures CacheWell(cfg, UnpinQueries(cfg, c, sel))
  {
    var pinned := set k | k in c.pinned && !Selected(sel, k);
    EvictedBound(c.order, pinned, cfg.maxEntries);
    RestrictKeeps(cfg, c, Evicted(c.order, pinned, cfg.maxEntries), pinned);
  }

  /** The store may move on in any way that respects revisions. */
  lemma CoherentAfter(p: Policy, s: Store, later: Store, c: Cache)
    requires TablesWell(s) && TablesWell(later) && RowsFollowRevisions(s, later) && Coherent(p, s, c)
    ensures Coherent(p, later, c)
  {
    forall k, q | k in c.entries && k.revision == RevisionIn(later, k.namespace) && Keyed(q, k)
      ensures Meant(p, later, q) == Ok(c.entries[k].result)
    {
      assert k.revision == RevisionIn(s, k.namespace);
      var b := BranchOf(q);
      if b in s.branches {
        assert SameRevision(s, later, b.namespace);
      }
    }
  }

  // --------------------------------------------------------------- one search

  /** A key tells what a plain query means. */
  lemma SameKeySameMeaning(p: Policy, s: Store, q: Query, other: Query, revision: Option<nat>)
    requires Tree(s.branches) && PlainQuery(q) && PlainQuery(other) && KeyFor(q, revision) == KeyFor(other, revision)
    ensures Meant(p, s, q) == Meant(p, s, other)
  {
    PlainIsPlainer(OrEmpty(q.filter.value));
    PlainIsPlainer(OrEmpty(other.filter.value));
    PlainTextsDiffer(OrEmpty(q.filter.value), OrEmpty(other.filter.value));
    SortedLists(q.tags.items);
    SortedLists(other.tags.items);
    assert q.tags.items != [] ==> q.tags.items[0] in Sorted(q.tags.items);
    assert other.tags.items != [] ==> other.tags.items[0] in Sorted(other.tags.items);
    assert Intended(q).value == Intended(other).value;
    assert q.request == other.request;
  }

  lemma TextsPlain(names: seq<string>)
    ensures Plain(Texts(names))
  {
  }

  /** Of a plain query the backend gets what the caller means. */
  lemma PlainIsPassed(q: Query)
    requires PlainQuery(q)
    ensures Passed(q) == Ok(Intended(q)) && DrainedQuery(q) == q
    ensures KeyFor(q, None).Ok? && PlainCall(OrEmpty(Intended(q).value), q.principal)
  {
    var entries := OrEmpty(q.filter.value).entries;
    PlainIsPlainer(OrEmpty(q.filter.value));
    var typed := if q.podType.Some? then Put(entries, Name("type"), Text(q.podType.value)) else entries;
    if q.podType.Some? { PutPlain(entries, "type", Text(q.podType.value)); }
    TextsPlain(Sorted(q.tags.items));
    if q.tags.items != [] { PutPlain(typed, "tags", ContainsAll(q.tags.items)); }
  }

  /** A plain query through the cache is answered with the plain scan, unless
      evaluating its filter raises; the cache stays well and coherent, and nothing
      stays in flight. */
  lemma CacheSearchKeeps(p: Policy, cfg: Config, s: Store, c: Cache, q: Query, now: real)
    requires StoreInv(p, s) && CacheWell(cfg, c) && Coherent(p, s, c) && c.inflight == {} && PlainQuery(q)
    ensures var (reply, after) := CacheSearch(p, cfg, s, c, q, now);
            && (reply == Replied(Expected(p, s, q)) || (Expected(p, s, q) == Err(FilterError) && reply == Replied(Meant(p, s, q))))
            && CacheWell(cfg, after) && Coherent(p, s, after) && after.inflight == {}
  {
    var revision := RevisionIn(s, q.namespace);
    var current := DropStale(c, q.namespace, revision);
    PlainIsPassed(q);
    var k := KeyFor(q, revision).value;
    DropStaleKeeps(p, cfg, s, c, q.namespace, revision);
    if Fresh(cfg, current, k, now) {
      assert Keyed(q, k);
      HitKeeps(p, cfg, s, current, k);
    } else {
      SearchIsPlainScan(p, s, BranchOf(q), q.request, Intended(q), q.principal);
      var answer := Forwarded(p, s, q);
      if answer.Ok? {
        StoredKeeps(cfg, current, k, Stored(now, answer.value));
        StoredCoherent(p, cfg, s, current, q, Stored(now, answer.value));
      }
    }
  }

  /** The exception shows exactly when evaluating the filter raises and the answer
      is in one of the caches. */
  lemma CacheDiffersIff(p: Policy, cfg: Config, s: Store, c: Cache, q: Query, now: real)
    requires StoreInv(p, s) && CacheWell(cfg, c) && Coherent(p, s, c) && c.inflight == {} && PlainQuery(q)
    ensures CacheSearch(p, cfg, s, c, q, now).0 != Replied(Expected(p, s, q)) <==>
            && Expected(p, s, q) == Err(FilterError)
            && (!Missed(cfg, s, c, q, now) || FilterKeyOf(s, BranchOf(q), Intended(q), q.principal) in s.filterCache)
  {
    PlainIsPassed(q);
    CacheSearchKeeps(p, cfg, s, c, q, now);
    DiffersIff(p, s, BranchOf(q), q.request, Intended(q), q.principal);
  }

  lemma DropStaleKeeps(p: Policy, cfg: Config, s: Store, c: Cache, namespace: string, revision: Option<nat>)
    requires Tree(s.branches) && CacheWell(cfg, c) && Coherent(p, s, c)
    ensures CacheWell(cfg, DropStale(c, namespace, revision)) && Coherent(p, s, DropStale(c, namespace, revision))
  {
    ForgetKeeps(cfg, c, StaleKeys(c, namespace, revision));
    FewerCoherent(p, s, c, DropStale(c, namespace, revision));
  }

  lemma HitKeeps(p: Policy, cfg: Config, s: Store, c: Cache, k: CacheKey)
    requires Tree(s.branches) && CacheWell(cfg, c) && Coherent(p, s, c) && k in c.entries
    ensures CacheWell(cfg, c.(order := Touched(c.order, k))) && Coherent(p, s, c.(order := Touched(c.order, k)))
  {
    TouchKeeps(cfg, c, k);
    FewerCoherent(p, s, c, c.(order := Touched(c.order, k)));
  }

  lemma FewerCoherent(p: Policy, s: Store, c: Cache, after: Cache)
    requires Tree(s.branches) && Coherent(p, s, c)
    requires forall k :: k in after.entries ==> k in c.entries && after.entries[k] == c.entries[k]
    ensures Coherent(p, s, after)
  {
    forall k, q | k in after.entries && k.revision == RevisionIn(s, k.namespace) && Keyed(q, k)
      ensures Meant(p, s, q) == Ok(after.entries[k].result)
    {
      assert k in c.entries;
    }
  }

  lemma StoredCoherent(p: Policy, cfg: Config, s: Store, c: Cache, q: Query, entry: Stored)
    requires Tree(s.branches) && Coherent(p, s, c) && NoDuplicates(c.order) && PlainQuery(q)
    requires KeyFor(q, RevisionIn(s, q.namespace)).Ok? && Meant(p, s, q) == Ok(entry.result)
    ensures Coherent(p, s, WithEntry(cfg, c, KeyFor(q, RevisionIn(s, q.namespace)).value, entry))
  {
    var k := KeyFor(q, RevisionIn(s, q.namespace)).value;
    var after := WithEntry(cfg, c, k, entry);
    forall j | j in after.entries
      ensures j == k || (j in c.entries && after.entries[j] == c.entries[j])
      ensures j == k ==> after.entries[j] == entry
    {
    }
    forall j, r | j in after.entries && j.revision == RevisionIn(s, j.namespace) && Keyed(r, j)
      ensures Meant(p, s, r) == Ok(after.entries[j].result)
    {
      if j == k { SameKeySameMeaning(p, s, q, r, k.revision); }
    }
  }

  // ----------------------------------------------------------- stuck in flight

  /** A search leaves its key in flight exactly when the key is new there, its
      entry is not fresh and the filter does not convert to a mapping. */
  lemma LeftInFlightIff(p: Policy, cfg: Config, s: Store, c: Cache, q: Query, now: real)
    requires Tree(s.branches) && NoDuplicates(c.order)
    ensures var k, after := KeyFor(q, RevisionIn(s, q.namespace)), CacheSearch(p, cfg, s, c, q, now).1;
            && after.inflight == c.inflight + (
                 if k.Ok? && !Fresh(cfg, DropStale(c, q.namespace, RevisionIn(s, q.namespace)), k.value, now) && Passed(q).Err?
                 then {k.value} else {})
  {
  }

  /** In flight without an entry. */
  predicate Stuck(c: Cache, k: CacheKey) {
    k in c.inflight && k !in c.entries && k !in c.order
  }

  /** One operation on the cache, on any store and with any query. */
  datatype CacheOp =
    | SearchCall(s: Store, q: Query, now: real)
    | PinCall(s: Store, q: Query, now: real)
    | UnpinCall(sel: Selector)
    | InvalidateCall(sel: Selector)

  ghost function CacheStep(p: Policy, cfg: Config, c: Cache, op: CacheOp): Cache
    requires NoDuplicates(c.order)
  {
    match op
    case SearchCall(s, q, now) => if Tree(s.branches) then CacheSearch(p, cfg, s, c, q, now).1 else c
    case PinCall(s, q, now) => if Tree(s.branches) then CachePin(p, cfg, s, c, q, now).1 else c
    case UnpinCall(sel) => UnpinQueries(cfg, c, sel)
    case InvalidateCall(sel) => Invalidate(c, sel)
  }

  lemma OtherEntryStuck(cfg: Config, c: Cache, j: CacheKey, entry: Stored, k: CacheKey)
    requires NoDuplicates(c.order) && Stuck(c, k) && j != k
    ensures NoDuplicates(WithEntry(cfg, c, j, entry).order) && Stuck(WithEntry(cfg, c, j, entry), k)
  {
    TouchedDistinct(c.order, j);
    EvictedBound(Touched(c.order, j), c.pinned, cfg.maxEntries);
    var kept := Evicted(Touched(c.order, j), c.pinned, cfg.maxEntries);
    assert k !in Elems(Touched(c.order, j)) && (k in kept ==> k in Elems(kept));
  }

  lemma StaleStuck(c: Cache, namespace: string, revision: Option<nat>, k: CacheKey)
    requires NoDuplicates(c.order) && Stuck(c, k)
    ensures NoDuplicates(DropStale(c, namespace, revision).order) && Stuck(DropStale(c, namespace, revision), k)
  {
    WithoutDistinct(c.order, StaleKeys(c, namespace, revision));
  }

  lemma MissStaysStuck(p: Policy, cfg: Config, s: Store, c: Cache, q: Query, key: CacheKey, now: real, k: CacheKey)
    requires Tree(s.branches) && NoDuplicates(c.order) && Stuck(c, k)
    ensures NoDuplicates(CacheMiss(p, cfg, s, c, q, key, now).1.order) && Stuck(CacheMiss(p, cfg, s, c, q, key, now).1, k)
    ensures key == k ==> CacheMiss(p, cfg, s, c, q, key, now).0 == Blocked
  {
    if key != k && Passed(q).Ok? && Forwarded(p, s, q).Ok? {
      OtherEntryStuck(cfg, c, key, Stored(now, Forwarded(p, s, q).value), k);
    }
  }

  lemma SearchStaysStuck(p: Policy, cfg: Config, s: Store, c: Cache, q: Query, now: real, k: CacheKey)
    requires Tree(s.branches) && NoDuplicates(c.order) && Stuck(c, k)
    ensures NoDuplicates(CacheSearch(p, cfg, s, c, q, now).1.order) && Stuck(CacheSearch(p, cfg, s, c, q, now).1, k)
    ensures KeyFor(q, RevisionIn(s, q.namespace)) == Ok(k) ==> CacheSearch(p, cfg, s, c, q, now).0 == Blocked
  {
    var revision := RevisionIn(s, q.namespace);
    var current, key := DropStale(c, q.namespace, revision), KeyFor(q, revision);
    StaleStuck(c, q.namespace, revision, k);
    if key.Ok? {
      if Fresh(cfg, current, key.value, now) { TouchedDistinct(current.order, key.value); } else { MissStaysStuck(p, cfg, s, current, q, key.value, now, k); }
    }
  }

  lemma StepStaysStuck(p: Policy, cfg: Config, c: Cache, op: CacheOp, k: CacheKey)
    requires NoDuplicates(c.order) && Stuck(c, k)
    ensures NoDuplicates(CacheStep(p, cfg, c, op).order) && Stuck(CacheStep(p, cfg, c, op), k)
  {
    match op
    case SearchCall(s, q, now) => if Tree(s.branches) { SearchStaysStuck(p, cfg, s, c, q, now, k); }
    case PinCall(s, q, now) => if Tree(s.branches) { SearchStaysStuck(p, cfg, s, c, q, now, k); }
    case UnpinCall(sel) =>
      var pinned := set j | j in c.pinned && !Selected(sel, j);
      EvictedBound(c.order, pinned, cfg.maxEntries);
      assert forall j :: j in Evicted(c.order, pinned, cfg.maxEntries) ==> j in Elems(Evicted(c.order, pinned, cfg.maxEntries));
    case InvalidateCall(sel) => WithoutDistinct(c.order, set j | j in c.order && Selected(sel, j));
  }

  ghost function CacheRun(p: Policy, cfg: Config, c: Cache, ops: seq<CacheOp>, k: CacheKey): (after: Cache)
    requires NoDuplicates(c.order) && Stuck(c, k)
    ensures NoDuplicates(after.order) && Stuck(after, k)
    decreases |ops|
  {
    if ops == [] then c
    else
      StepStaysStuck(p, cfg, c, ops[0], k);
      CacheRun(p, cfg, CacheStep(p, cfg, c, ops[0]), ops[1..], k)
  }

  /** Once a key is stuck in flight no later search for it is ever answered. */
  lemma StuckForever(p: Policy, cfg: Config, c: Cache, ops: seq<CacheOp>, k: CacheKey, s: Store, q: Query, now: real)
    requires NoDuplicates(c.order) && Stuck(c, k) && Tree(s.branches) && KeyFor(q, RevisionIn(s, q.namespace)) == Ok(k)
    ensures CacheSearch(p, cfg, s, CacheRun(p, cfg, c, ops, k), q, now).0 == Blocked
  {
    SearchStaysStuck(p, cfg, s, CacheRun(p, cfg, c, ops, k), q, now, k);
  }
}
