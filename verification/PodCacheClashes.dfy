/** Exactly which queries the result cache answers like an uncached search, and
    queries that it does not. */
module PodCacheClashes {
  import opened Prelude
  import opened Filters
  import opened SearchModel
  import opened SearchClashes
  import opened PodCache

  const CONFIG := Config(10, 10.0)

  /** The arguments that decide whether a query can be cached. */
  datatype Shape = Shape(filter: Value, principal: Option<string>, tagsOnce: bool, vectorOnce: bool, unkeyed: string)

  predicate HasShape(q: Query, a: Shape) {
    && q.filter.value == a.filter && q.principal == a.principal && q.request.unkeyed == a.unkeyed
    && q.tags.Once? == a.tagsOnce && (q.request.vector.Some? ==> q.request.vector.value.Once? == a.vectorOnce)
  }

  /** After plain queries a query of this shape is answered with the plain scan
      whenever that answers. */
  ghost predicate AlwaysAnswers(a: Shape) {
    forall p: Policy, cfg: Config, s: Store, c: Cache, q: Query, now: real ::
      StoreInv(p, s) && CacheWell(cfg, c) && Coherent(p, s, c) && c.inflight == {} && HasShape(q, a) && Expected(p, s, q).Ok? ==>
        CacheSearch(p, cfg, s, c, q, now).0 == Replied(Expected(p, s, q))
  }

  predicate PlainShape(a: Shape) {
    OrEmpty(a.filter).Dict? && PlainCall(OrEmpty(a.filter), a.principal) && !a.tagsOnce && !a.vectorOnce && a.unkeyed == ""
  }

  /** The caches are harmless exactly for mapping filters built from string keys,
      lists and scalars, principals other than "None", arguments that can be read
      again, and searches of which the key shows everything. */
  lemma AlwaysAnswersIff(a: Shape)
    requires Listed(OrEmpty(a.filter))
    ensures AlwaysAnswers(a) <==> PlainShape(a)
  {
    if PlainShape(a) {
      forall p: Policy, cfg: Config, s: Store, c: Cache, q: Query, now: real
        | StoreInv(p, s) && CacheWell(cfg, c) && Coherent(p, s, c) && c.inflight == {} && HasShape(q, a) && Expected(p, s, q).Ok?
        ensures CacheSearch(p, cfg, s, c, q, now).0 == Replied(Expected(p, s, q))
      {
        CacheSearchKeeps(p, cfg, s, c, q, now);
      }
    } else {
      NotAlwaysAnswers(a);
    }
  }

  /** A query of the shape, without pod type; what can be read only once is not empty. */
  function Sample(a: Shape): Query {
    Query("default", "main", None, if a.tagsOnce then Once(["t"]) else Again([]),
          Request("", if a.vectorOnce then Some(Once([1.0])) else None, None, 10, a.unkeyed), Filter(a.filter, []), a.principal, None)
  }

  lemma NotAlwaysAnswers(a: Shape)
    requires Listed(OrEmpty(a.filter)) && !PlainShape(a)
    ensures !AlwaysAnswers(a)
  {
    var q, v := Sample(a), OrEmpty(a.filter);
    if !v.Dict? || a.tagsOnce || a.vectorOnce || !Printable(v, false) {
      ForwardedDiffers(a);
      NothingCached(q);
      Refutes(a, OnlyCall(q), OneRow(BLANK), EMPTY, q);
    } else if !PlainCall(v, a.principal) {
      FilterCacheSpoils(a);
    } else {
      HiddenArgumentSpoils(a);
    }
  }

  lemma Refutes(a: Shape, p: Policy, s: Store, c: Cache, q: Query)
    requires StoreInv(p, s) && CacheWell(CONFIG, c) && Coherent(p, s, c) && c.inflight == {} && HasShape(q, a)
    requires Expected(p, s, q).Ok? && CacheSearch(p, CONFIG, s, c, q, 0.0).0 != Replied(Expected(p, s, q))
    ensures !AlwaysAnswers(a)
  {
  }

  /** Shows the row to one query only. */
  ghost function OnlyCall(q: Query): Policy {
    Policy((m: Metadata, who: Option<string>) => who == q.principal, (m: Metadata, x: Value) => x == OrEmpty(Intended(q).value),
           (m: Metadata, f: Filter) => false,
           (view: View, request: Request) => if request == q.request then RowRank(view, request) else [])
  }

  /** What the backend gets is not what the caller means. */
  predicate Garbled(q: Query) {
    || Passed(q).Err? || !Printable(OrEmpty(Passed(q).value.value), false)
    || OrEmpty(Passed(q).value.value) != OrEmpty(Intended(q).value) || DrainedRequest(q.request) != q.request
  }

  lemma {:induction false} GetPut(entries: seq<Entry>, k: Key, x: Value)
    ensures Get(Put(entries, k, x), k) == Some(x)
    decreases |entries|
  {
    if entries != [] && entries[0].key != k && !Before(KeyText(k), KeyText(entries[0].key)) { GetPut(entries[1..], k, x); }
  }

  lemma ForwardedDiffers(a: Shape)
    requires var v := OrEmpty(a.filter); !v.Dict? || a.tagsOnce || a.vectorOnce || !Printable(v, false)
    ensures Garbled(Sample(a))
  {
    var q, v := Sample(a), OrEmpty(a.filter);
    if v.Dict? && a.tagsOnce {
      GetPut(v.entries, Name("tags"), ContainsAll([]));
      GetPut(v.entries, Name("tags"), ContainsAll(["t"]));
      SortedLists(["t"]);
      assert "t" in Sorted(["t"]) && ContainsAll([]) != ContainsAll(["t"]);
    }
  }

  lemma RowSeen(p: Policy, q: Query, s: Store, v: Value, request: Request)
    requires p == OnlyCall(q) && Tree(s.branches) && MAIN in s.branches && ViewOf(s.branches, s.items, MAIN) == map["k" := BLANK]
    requires request.topK > 0
    ensures Matching(p, s, MAIN, request, v, q.principal) ==
            Ok(if request == q.request && OrEmpty(v) == OrEmpty(Intended(q).value) then [HIT] else [])
  {
    var view := ViewOf(s.branches, s.items, MAIN);
    assert "k" in view && view["k"] == BLANK;
    assert "k" in AllowedKeys(p, view, OrEmpty(v), q.principal) <==> OrEmpty(v) == OrEmpty(Intended(q).value);
  }

  lemma NothingCached(q: Query)
    requires Garbled(q) && BranchOf(q) == MAIN && q.request.topK > 0
    ensures var p, s := OnlyCall(q), OneRow(BLANK);
            && StoreInv(p, s) && CacheWell(CONFIG, EMPTY) && Coherent(p, s, EMPTY) && Expected(p, s, q) == Ok([HIT])
            && CacheSearch(p, CONFIG, s, EMPTY, q, 0.0).0 != Replied(Ok([HIT]))
  {
    var p, s := OnlyCall(q), OneRow(BLANK);
    OneRowFacts(p, BLANK);
    RowSeen(p, q, s, Intended(q).value, q.request);
    if Passed(q).Ok? { RowSeen(p, q, s, Passed(q).value.value, DrainedRequest(q.request)); }
  }

  /** The answer of an empty cache. */
  lemma EmptyCache(p: Policy, s: Store, q: Query)
    requires Tree(s.branches)
    ensures var (reply, after) := CacheSearch(p, CONFIG, s, EMPTY, q, 0.0);
            var key := KeyFor(q, RevisionIn(s, q.namespace));
            && reply == Replied(if key.Err? then Err(key.error) else if Passed(q).Err? then Err(Passed(q).error) else Forwarded(p, s, q))
            && (reply.result.Ok? ==> after == Cache([key.value], map[key.value := Stored(0.0, reply.result.value)], {}, {}))
  {
    var key := KeyFor(q, RevisionIn(s, q.namespace));
    assert DropStale(EMPTY, q.namespace, RevisionIn(s, q.namespace)) == EMPTY;
    if key.Ok? { assert Touched([], key.value) == [key.value]; }
  }

  /** A plain search with the same texts leaves a filter entry that the backend answers from. */
  lemma FilterCacheSpoils(a: Shape)
    requires Listed(OrEmpty(a.filter)) && OrEmpty(a.filter).Dict? && Printable(OrEmpty(a.filter), false)
    requires !PlainCall(OrEmpty(a.filter), a.principal) && !a.tagsOnce && !a.vectorOnce
    ensures !AlwaysAnswers(a)
  {
    var q := Sample(a);
    Spoiled(Intended(q), a.principal, q.request);
    var p, s := Only(OrEmpty(a.filter), a.principal), LookAlike(Intended(q), a.principal, q.request);
    assert Passed(q) == Ok(Intended(q)) && DrainedRequest(q.request) == q.request;
    EmptyCache(p, s, q);
    Refutes(a, p, s, EMPTY, q);
  }

  /** A plain query with the same key leaves an entry that answers the search. */
  lemma HiddenArgumentSpoils(a: Shape)
    requires OrEmpty(a.filter).Dict? && PlainCall(OrEmpty(a.filter), a.principal) && !a.tagsOnce && !a.vectorOnce && a.unkeyed != ""
    ensures !AlwaysAnswers(a)
  {
    var q := Sample(a);
    var first := q.(request := q.request.(unkeyed := ""));
    var p, s := OnlyCall(q), OneRow(BLANK);
    OneRowFacts(p, BLANK);
    RowSeen(p, q, s, Intended(first).value, first.request);
    RowSeen(p, q, s, Intended(q).value, q.request);
    PlainIsPassed(first);
    CacheSearchKeeps(p, CONFIG, s, EMPTY, first, 0.0);
    var c := CacheSearch(p, CONFIG, s, EMPTY, first, 0.0).1;
    Remembered(p, s, first, q, [], 0.0);
    Refutes(a, p, s, c, q);
  }

  /** A query with the key of an earlier one is answered like it. */
  lemma Remembered(p: Policy, s: Store, first: Query, q: Query, hits: seq<Hit>, now: real)
    requires Tree(s.branches) && KeyFor(q, RevisionIn(s, first.namespace)) == KeyFor(first, RevisionIn(s, first.namespace))
    requires CacheSearch(p, CONFIG, s, EMPTY, first, 0.0).0 == Replied(Ok(hits)) && 0.0 <= now < 10.0
    ensures var c := CacheSearch(p, CONFIG, s, EMPTY, first, 0.0).1;
            NoDuplicates(c.order) && CacheSearch(p, CONFIG, s, c, q, now).0 == Replied(Ok(hits))
  {
    EmptyCache(p, s, first);
    var k, c := KeyFor(first, RevisionIn(s, first.namespace)).value, CacheSearch(p, CONFIG, s, EMPTY, first, 0.0).1;
    assert StaleKeys(c, q.namespace, k.revision) == {};
    assert Without([k], {}) == [k];
  }

  // ----------------------------------------------------------------- clashes

  /** `["year", "eq", 2020]`, which the backend would evaluate. */
  const YEAR := Filter(List([Text("year"), Text("eq"), Number("2020")]), [])

  function Ask(filter: Filter, tags: Supply<seq<string>>): Query {
    Query("default", "main", None, tags, REQUEST, filter, None, None)
  }

  /** An expression as filter raises, and leaves its key in flight for ever: see `StuckForever`. */
  lemma ExpressionBlocks(p: Policy)
    requires RanksRow(p) && forall m, f :: !p.raises(m, f)
    ensures var q, s := Ask(YEAR, Again([])), OneRow(BLANK);
            var (reply, after) := CacheSearch(p, CONFIG, s, EMPTY, q, 0.0);
            var k := KeyFor(q, RevisionIn(s, "default"));
            && reply == Replied(Err(ValueError)) && Expected(p, s, q).Ok? && k.Ok? && Stuck(after, k.value)
            && NoDuplicates(after.order) && CacheSearch(p, CONFIG, s, after, q, 1.0).0 == Blocked
  {
    var q, s := Ask(YEAR, Again([])), OneRow(BLANK);
    var revision := RevisionIn(s, "default");
    assert DropStale(EMPTY, "default", revision) == EMPTY;
    assert AsPair(Text("year")) == Err(ValueError);
    assert Passed(q) == Err(ValueError);
    SearchStaysStuck(p, CONFIG, s, CacheSearch(p, CONFIG, s, EMPTY, q, 0.0).1, q, 1.0, KeyFor(q, revision).value);
  }

  /** Some expressions convert to a mapping that means something else. */
  lemma ExpressionMisread()
    ensures AsMapping(List([Text("id"), Text("in"), List([Text("a"), Text("b")])])) ==
            Ok([Entry(Name("a"), Text("b")), Entry(Name("i"), Text("n"))])
  {
    var pair := List([Text("a"), Text("b")]);
    var d, n, b := Entry(Name("i"), Text("d")), Entry(Name("i"), Text("n")), Entry(Name("a"), Text("b"));
    assert "id"[..1] == "i" && "id"[1..] == "d" && "in"[..1] == "i" && "in"[1..] == "n";
    assert AsPair(Text("id")) == Ok((Name("i"), Text("d"))) && AsPair(Text("in")) == Ok((Name("i"), Text("n"))) && AsPair(pair) == Ok((Name("a"), Text("b")));
    assert Put([], d.key, d.value) == [d];
    assert [d][1..] == [] && [n] + [] == [n] && Put([d], n.key, n.value) == [n];
    assert Put([n], b.key, b.value) == [b, n];
    assert List([Text("id"), Text("in"), pair]).items == [Text("id")] + ([Text("in")] + [pair]);
    FromOne(pair, [n]);
    FromMore(Text("in"), [pair], [d]);
    FromMore(Text("id"), [Text("in"), pair], []);
  }

  lemma FromOne(x: Value, entries: seq<Entry>)
    requires AsPair(x).Ok?
    ensures FromPairs([x], entries) == Ok(Put(entries, AsPair(x).value.0, AsPair(x).value.1))
  {
  }

  lemma FromMore(x: Value, rest: seq<Value>, entries: seq<Entry>)
    requires AsPair(x).Ok?
    ensures FromPairs([x] + rest, entries) == FromPairs(rest, Put(entries, AsPair(x).value.0, AsPair(x).value.1))
  {
  }

  const TAG_ONCE := Ask(Filter(EMPTY_FILTER, []), Once(["a"]))
  const TAG_AGAIN := Ask(Filter(EMPTY_FILTER, []), Again(["a"]))

  /** Tags that can be read only once: the row without the tag is returned, and
      again to a later caller who names the tag in a list. */
  lemma OneShotTags()
    ensures var p, s := Mappings(), OneRow(BLANK);
            var (reply, after) := CacheSearch(p, CONFIG, s, EMPTY, TAG_ONCE, 0.0);
            && reply == Replied(Ok([HIT])) && NoDuplicates(after.order) && CacheSearch(p, CONFIG, s, after, TAG_AGAIN, 1.0).0 == Replied(Ok([HIT]))
            && Expected(p, s, TAG_ONCE) == Expected(p, s, TAG_AGAIN) == Ok([])
  {
    var p, s := Mappings(), OneRow(BLANK);
    TagsOnly();
    TagSearches();
    EmptyCache(p, s, TAG_ONCE);
    Remembered(p, s, TAG_ONCE, TAG_AGAIN, [HIT], 1.0);
  }

  lemma TagSearches()
    ensures BackendSearch(Mappings(), OneRow(BLANK), MAIN, REQUEST, TagFilter([]), None) == Ok([HIT])
    ensures PlainScan(Mappings(), OneRow(BLANK), MAIN, REQUEST, TagFilter(["a"]), None) == Ok([])
  {
    TagVerdict([]);
    TagVerdict(["a"]);
    OneRowFacts(Mappings(), BLANK);
    FirstSearch(Mappings(), BLANK, OneRow(BLANK), TagFilter([]), None, REQUEST);
    FirstSearch(Mappings(), BLANK, OneRow(BLANK), TagFilter(["a"]), None, REQUEST);
  }

  function TagFilter(tags: seq<string>): Filter {
    Filter(One(Name("tags"), ContainsAll(tags)), [Name("tags")])
  }

  /** Nothing is left of the tags when the filter is built. */
  lemma TagsOnly()
    ensures Passed(TAG_ONCE) == Ok(TagFilter([])) && DrainedRequest(REQUEST) == REQUEST
    ensures Intended(TAG_ONCE) == TagFilter(["a"]) && Intended(TAG_AGAIN) == TagFilter(["a"])
  {
    var order: seq<Key> := [Name("tags")];
    assert [] + [] + order == order;
  }

  /** On a row without tags. */
  lemma TagVerdict(tags: seq<string>)
    ensures var f := TagFilter(tags);
            && OrEmpty(f.value) == f.value && Printable(f.value, false) && !RaisesOn(Mappings(), BLANK, f, None)
            && Shown(Mappings(), BLANK, f.value, None) == Ok(if tags == [] then [HIT] else [])
  {
    var test, xs := ContainsAll(tags), Texts(Sorted(tags));
    SortedLists(tags);
    if tags != [] {
      assert tags[0] in Sorted(tags);
      var i :| 0 <= i < |Sorted(tags)| && Sorted(tags)[i] == tags[0];
      assert xs.items[i] == Text(tags[0]) && Text(tags[0]) in xs.items;
    }
    assert AllIn(xs, [Null]) == If(tags == []);
    assert Printable(xs, false) && Printable(test, false);
    ContainsVerdict(xs);
    OneVerdict(BLANK.metadata, Name("tags"), test);
  }

  lemma ContainsVerdict(xs: Value)
    ensures TestOf(Null, One(Name("contains"), xs)) == AllIn(xs, [Null])
  {
    GetOne(Name("contains"), xs, Name("in"));
    GetOne(Name("contains"), xs, Name("contains"));
    GetOne(Name("contains"), xs, Name("eq"));
  }
}
