/** The copy-on-write search store as a value: branches inherit rows from their
    parents, pinned snapshots and the filter cache are derived data.

    Authorization, filter matching and scoring are parameters: nothing here
    depends on how they decide, only on what they are shown. */
module SearchModel {
  import opened Prelude
  import opened Filters

  datatype BranchId = BranchId(namespace: string, name: string)

  /** Metadata as it reads back from its stored text; `revision` may be absent. */
  datatype Metadata = Metadata(revision: Option<int>, fields: map<string, Value>)

  type Vector = seq<real>

  datatype Item = Item(text: string, vector: Option<Vector>, metadata: Metadata, deleted: bool)

  /** A resolved snapshot: one row per key, tombstones included. */
  type View = map<string, Item>

  /** An argument that can be read again and again, or once only like a generator. */
  datatype Supply<+T> = Again(items: T) | Once(items: T)

  /** What a search asks for, apart from filter and principal. `unkeyed` is what
      no cache key shows: a regular expression, weights, and whatever printing a
      rank profile hides. */
  datatype Request = Request(text: string, vector: Option<Supply<Vector>>, rankProfile: Option<string>, topK: int, unkeyed: string)

  datatype Hit = Hit(key: string, score: real)

  /** `matches` is what evaluating a filter on a row gives if it does not raise;
      whether it raises may depend on the order of the filter's keys. */
  datatype Policy = Policy(
    authorized: (Metadata, Option<string>) -> bool,
    matches: (Metadata, Value) -> bool,
    raises: (Metadata, Filter) -> bool,
    rank: (View, Request) -> seq<Hit>)

  datatype NamespaceMeta = NamespaceMeta(revision: nat, readOnly: bool)

  /** The filter cache is keyed by the texts of filter and principal: no principal
      prints as "None". */
  datatype FilterKey = FilterKey(branch: BranchId, revision: nat, filter: string, principal: string)

  datatype Store = Store(
    branches: map<BranchId, Option<string>>,
    items: map<(BranchId, string), Item>,
    meta: map<string, NamespaceMeta>,
    pinned: map<BranchId, View>,
    filterCache: map<FilterKey, set<string>>)

  const MAIN := BranchId("default", "main")

  const INITIAL := Store(map[MAIN := None], map[], map["default" := NamespaceMeta(0, false)], map[], map[])

  // -------------------------------------------------------------- resolution

  type Branches = map<BranchId, Option<string>>
  type Items = map<(BranchId, string), Item>

  function Parent(b: BranchId, branches: Branches): BranchId
    requires b in branches && branches[b].Some?
  {
    BranchId(b.namespace, branches[b].value)
  }

  ghost predicate TreeRank(branches: Branches, rank: map<BranchId, nat>) {
    forall b :: b in branches ==>
      b in rank && (branches[b].Some? ==> Parent(b, branches) in branches && Parent(b, branches) in rank
                                          && rank[Parent(b, branches)] < rank[b])
  }

  /** Every parent exists and no branch is its own ancestor. */
  ghost predicate Tree(branches: Branches) {
    exists rank :: TreeRank(branches, rank)
  }

  ghost function RankOf(branches: Branches): map<BranchId, nat>
    requires Tree(branches)
    ensures TreeRank(branches, RankOf(branches))
  {
    var rank :| TreeRank(branches, rank);
    rank
  }

  /** The nearest row for a key: a branch's own, else its parent's nearest. */
  ghost function Resolve(branches: Branches, items: Items, b: BranchId, key: string): Option<Item>
    requires Tree(branches) && b in branches
    decreases RankOf(branches)[b]
  {
    if (b, key) in items then Some(items[(b, key)])
    else if branches[b].None? then None
    else Resolve(branches, items, Parent(b, branches), key)
  }

  function KeysOf(items: Items): set<string> {
    set entry | entry in items :: entry.1
  }

  ghost function ViewOf(branches: Branches, items: Items, b: BranchId): View
    requires Tree(branches) && b in branches
  {
    map key | key in KeysOf(items) && Resolve(branches, items, b, key).Some? :: Resolve(branches, items, b, key).value
  }

  /** b lies on the parent chain of c, c itself included. */
  ghost predicate Inherits(branches: Branches, c: BranchId, b: BranchId)
    requires Tree(branches) && c in branches
    decreases RankOf(branches)[c]
  {
    c == b || (branches[c].Some? && Inherits(branches, Parent(c, branches), b))
  }

  /** c inherits from b and nothing nearer on the way hides the key. */
  ghost predicate Sees(branches: Branches, items: Items, c: BranchId, b: BranchId, key: string)
    requires Tree(branches) && c in branches
    decreases RankOf(branches)[c]
  {
    c == b || ((c, key) !in items && branches[c].Some? && Sees(branches, items, Parent(c, branches), b, key))
  }

  lemma {:induction false} ResolvedIsKnown(branches: Branches, items: Items, b: BranchId, key: string)
    requires Tree(branches) && b in branches && Resolve(branches, items, b, key).Some?
    ensures key in KeysOf(items)
    decreases RankOf(branches)[b]
  {
    if (b, key) !in items {
      ResolvedIsKnown(branches, items, Parent(b, branches), key);
    }
  }

  /** A view is resolution, key by key. */
  lemma ViewIsResolution(branches: Branches, items: Items, b: BranchId)
    requires Tree(branches) && b in branches
    ensures forall key {:trigger Resolve(branches, items, b, key)} ::
              Resolve(branches, items, b, key) ==
              if key in ViewOf(branches, items, b) then Some(ViewOf(branches, items, b)[key]) else None
  {
    forall key {:trigger Resolve(branches, items, b, key)}
      ensures Resolve(branches, items, b, key) ==
              if key in ViewOf(branches, items, b) then Some(ViewOf(branches, items, b)[key]) else None
    {
      if Resolve(branches, items, b, key).Some? { ResolvedIsKnown(branches, items, b, key); }
    }
  }

  /** A write to one key on one branch is seen by exactly the branches that
      inherit it without a nearer row or tombstone; every other key and branch
      resolves as before. */
  lemma {:induction false} WriteVisibility(branches: Branches, items: Items, b: BranchId, key: string, item: Item,
                                           c: BranchId, other: string)
    requires Tree(branches) && c in branches
    ensures Resolve(branches, items[(b, key) := item], c, other) ==
            if other == key && Sees(branches, items, c, b, key) then Some(item) else Resolve(branches, items, c, other)
    decreases RankOf(branches)[c]
  {
    if !(c == b && other == key) && (c, other) !in items && branches[c].Some? {
      WriteVisibility(branches, items, b, key, item, Parent(c, branches), other);
    }
  }

  lemma {:induction false} SeesInherits(branches: Branches, items: Items, c: BranchId, b: BranchId, key: string)
    requires Tree(branches) && c in branches && Sees(branches, items, c, b, key)
    ensures Inherits(branches, c, b)
    decreases RankOf(branches)[c]
  {
    if c != b { SeesInherits(branches, items, Parent(c, branches), b, key); }
  }

  lemma {:induction false} InheritsSameNamespace(branches: Branches, c: BranchId, b: BranchId)
    requires Tree(branches) && c in branches && Inherits(branches, c, b)
    ensures c.namespace == b.namespace
    decreases RankOf(branches)[c]
  {
    if c != b { InheritsSameNamespace(branches, Parent(c, branches), b); }
  }

  lemma SameResolutionSameView(branches: Branches, items: Items, later: Branches, now: Items, b: BranchId)
    requires Tree(branches) && b in branches && Tree(later) && b in later
    requires forall key :: Resolve(later, now, b, key) == Resolve(branches, items, b, key)
    ensures ViewOf(later, now, b) == ViewOf(branches, items, b)
  {
    var v, w := ViewOf(branches, items, b), ViewOf(later, now, b);
    ViewIsResolution(branches, items, b);
    ViewIsResolution(later, now, b);
    forall key
      ensures key in v <==> key in w
      ensures key in v ==> v[key] == w[key]
    {
      assert Resolve(later, now, b, key) == Resolve(branches, items, b, key);
    }
  }

  /** Branches outside the subtree of the written branch keep their view. */
  lemma WriteKeepsView(branches: Branches, items: Items, b: BranchId, key: string, item: Item, c: BranchId)
    requires Tree(branches) && c in branches && !Inherits(branches, c, b)
    ensures ViewOf(branches, items[(b, key) := item], c) == ViewOf(branches, items, c)
  {
    forall other
      ensures Resolve(branches, items[(b, key) := item], c, other) == Resolve(branches, items, c, other)
    {
      WriteVisibility(branches, items, b, key, item, c, other);
      if Sees(branches, items, c, b, key) { SeesInherits(branches, items, c, b, key); }
    }
    SameResolutionSameView(branches, items, branches, items[(b, key) := item], c);
  }

  /** Adding a branch keeps the tree and every resolution already possible. */
  lemma NewBranchTree(branches: Branches, b: BranchId, parent: Option<string>)
    requires Tree(branches) && b !in branches
    requires parent.Some? ==> BranchId(b.namespace, parent.value) in branches
    ensures Tree(branches[b := parent])
  {
    var rank := RankOf(branches);
    var n := if parent.Some? then rank[BranchId(b.namespace, parent.value)] + 1 else 0;
    assert TreeRank(branches[b := parent], rank[b := n]);
  }

  lemma {:induction false} NewBranchResolve(branches: Branches, items: Items, b: BranchId, parent: Option<string>,
                                            c: BranchId, key: string)
    requires Tree(branches) && b !in branches && c in branches && Tree(branches[b := parent])
    ensures Resolve(branches[b := parent], items, c, key) == Resolve(branches, items, c, key)
    decreases RankOf(branches)[c]
  {
    if (c, key) !in items && branches[c].Some? {
      NewBranchResolve(branches, items, b, parent, Parent(c, branches), key);
    }
  }

  lemma NewBranchView(branches: Branches, items: Items, b: BranchId, parent: Option<string>, c: BranchId)
    requires Tree(branches) && b !in branches && c in branches && Tree(branches[b := parent])
    ensures ViewOf(branches[b := parent], items, c) == ViewOf(branches, items, c)
  {
    forall key
      ensures Resolve(branches[b := parent], items, c, key) == Resolve(branches, items, c, key)
    {
      NewBranchResolve(branches, items, b, parent, c, key);
    }
    SameResolutionSameView(branches, items, branches[b := parent], items, c);
  }

  /** A fresh branch starts with its parent's view. */
  lemma BranchStartsAsParent(branches: Branches, items: Items, b: BranchId, parent: string)
    requires Tree(branches) && b !in branches && BranchId(b.namespace, parent) in branches
    requires Tree(branches[b := Some(parent)]) && forall key :: (b, key) !in items
    ensures ViewOf(branches[b := Some(parent)], items, b) == ViewOf(branches, items, BranchId(b.namespace, parent))
  {
    var later, p := branches[b := Some(parent)], BranchId(b.namespace, parent);
    NewBranchView(branches, items, b, Some(parent), p);
    assert Parent(b, later) == p;
    assert forall key :: Resolve(later, items, b, key) == Resolve(later, items, p, key);
  }

  // -------------------------------------------------------------- searching

  function PrintedPrincipal(principal: Option<string>): string {
    if principal.None? then "None" else principal.value
  }

  predicate Visible(p: Policy, item: Item, principal: Option<string>) {
    !item.deleted && p.authorized(item.metadata, principal)
  }

  function AllowedKeys(p: Policy, view: View, v: Value, principal: Option<string>): set<string> {
    set key | key in view && Visible(p, view[key], principal) && p.matches(view[key].metadata, v)
  }

  /** Evaluating the filter raises on a row the principal may see. */
  predicate Raises(p: Policy, view: View, filter: Filter, principal: Option<string>) {
    exists key :: key in view && Visible(p, view[key], principal) && p.raises(view[key].metadata, Filter(OrEmpty(filter.value), filter.order))
  }

  function Candidates(view: View, allowed: set<string>): View {
    map key | key in view && key in allowed :: view[key]
  }

  /** What filtering the resolved rows and scoring what is left gives, if
      evaluating the filter does not raise. */
  ghost function Matching(p: Policy, s: Store, b: BranchId, request: Request, v: Value, principal: Option<string>): Result<seq<Hit>, Error>
    requires Tree(s.branches)
  {
    if request.topK <= 0 then Ok([])
    else if b !in s.branches then Err(KeyError)
    else
      var view := ViewOf(s.branches, s.items, b);
      Ok(p.rank(Candidates(view, AllowedKeys(p, view, OrEmpty(v), principal)), request))
  }

  /** The meaning of a search: filter the resolved rows, then score what is left. */
  ghost function PlainScan(p: Policy, s: Store, b: BranchId, request: Request, filter: Filter,
                           principal: Option<string>): Result<seq<Hit>, Error>
    requires Tree(s.branches)
  {
    if request.topK > 0 && b in s.branches && Raises(p, ViewOf(s.branches, s.items, b), filter, principal) then Err(FilterError)
    else Matching(p, s, b, request, filter.value, principal)
  }

  /** The rows a search looks at: the pinned snapshot if the branch has one. */
  ghost function SnapshotOf(s: Store, b: BranchId): View
    requires Tree(s.branches) && b in s.branches
  {
    if b in s.pinned then s.pinned[b] else ViewOf(s.branches, s.items, b)
  }

  function FilterKeyOf(s: Store, b: BranchId, filter: Filter, principal: Option<string>): FilterKey {
    FilterKey(b, if b.namespace in s.meta then s.meta[b.namespace].revision else 0,
              Print(OrEmpty(filter.value)), PrintedPrincipal(principal))
  }

  /** The allowed keys a search uses: cached under the texts if possible. */
  ghost function AllowedBy(p: Policy, s: Store, b: BranchId, filter: Filter, principal: Option<string>): Result<set<string>, Error>
    requires Tree(s.branches) && b in s.branches
  {
    var k := FilterKeyOf(s, b, filter, principal);
    if !Printable(OrEmpty(filter.value), false) then Err(TypeError)
    else if k in s.filterCache then Ok(s.filterCache[k])
    else if Raises(p, SnapshotOf(s, b), filter, principal) then Err(FilterError)
    else Ok(AllowedKeys(p, SnapshotOf(s, b), OrEmpty(filter.value), principal))
  }

  /** A search as the backend runs it. */
  ghost function BackendSearch(p: Policy, s: Store, b: BranchId, request: Request, filter: Filter,
                               principal: Option<string>): Result<seq<Hit>, Error>
    requires Tree(s.branches)
  {
    if request.topK <= 0 then Ok([])
    else if b !in s.branches then Err(KeyError)
    else
      var allowed := AllowedBy(p, s, b, filter, principal);
      if allowed.Err? then Err(allowed.error) else Ok(p.rank(Candidates(SnapshotOf(s, b), allowed.value), request))
  }

  /** What a search leaves behind: its filter result is cached. */
  ghost function AfterSearch(p: Policy, s: Store, b: BranchId, request: Request, filter: Filter, principal: Option<string>): Store
    requires Tree(s.branches)
  {
    if request.topK <= 0 || b !in s.branches || AllowedBy(p, s, b, filter, principal).Err? then s
    else s.(filterCache := s.filterCache[FilterKeyOf(s, b, filter, principal) := AllowedBy(p, s, b, filter, principal).value])
  }

  // -------------------------------------------------------------- invariant

  /** Every branch's namespace is known, and rows live on known branches. */
  ghost predicate TablesWell(s: Store) {
    && Tree(s.branches)
    && (forall b :: b in s.branches ==> b.namespace in s.meta)
    && (forall entry :: entry in s.items ==> entry.0 in s.branches)
  }

  ghost predicate PinsFresh(s: Store)
    requires Tree(s.branches)
  {
    forall b :: b in s.pinned ==> b in s.branches && s.pinned[b] == ViewOf(s.branches, s.items, b)
  }

  /** A plain filter and a principal other than "None": their texts say which they are. */
  predicate PlainCall(v: Value, principal: Option<string>) {
    Plain(v) && principal != Some("None")
  }

  predicate KeyedBy(k: FilterKey, v: Value, principal: Option<string>) {
    PlainCall(v, principal) && k.filter == Print(v) && k.principal == PrintedPrincipal(principal)
  }

  /** An entry that a plain call reads holds what the rows say now. */
  ghost predicate FiltersFresh(p: Policy, s: Store)
    requires Tree(s.branches)
  {
    forall k :: k in s.filterCache ==>
      && k.branch in s.branches && k.branch.namespace in s.meta && k.revision == s.meta[k.branch.namespace].revision
      && forall v, principal :: KeyedBy(k, v, principal) ==>
           s.filterCache[k] == AllowedKeys(p, ViewOf(s.branches, s.items, k.branch), v, principal)
  }

  ghost predicate StoreInv(p: Policy, s: Store) {
    TablesWell(s) && PinsFresh(s) && FiltersFresh(p, s)
  }

  // ------------------------------------------------------------- operations

  /** Drops the derived data of a namespace that a change to one branch may touch. */
  ghost function Invalidated(s: Store, namespace: string, changed: string): Store
    requires Tree(s.branches) && forall b :: b in s.pinned ==> b in s.branches
  {
    s.(filterCache := map k | k in s.filterCache && k.branch.namespace != namespace :: s.filterCache[k],
       pinned := map b | b in s.pinned && !(b.namespace == namespace && Inherits(s.branches, b, BranchId(namespace, changed))) :: s.pinned[b])
  }

  function Bumped(s: Store, namespace: string): Store {
    if namespace in s.meta then
      s.(meta := s.meta[namespace := s.meta[namespace].(revision := s.meta[namespace].revision + 1)])
    else s
  }

  /** A row write: the row, the namespace revision, and what it invalidates. */
  ghost function Written(s: Store, b: BranchId, key: string, item: Item): Store
    requires Tree(s.branches) && forall c :: c in s.pinned ==> c in s.branches
  {
    Invalidated(Bumped(s.(items := s.items[(b, key) := item]), b.namespace), b.namespace, b.name)
  }

  predicate Writable(s: Store, b: BranchId) {
    b in s.branches && (b.namespace in s.meta ==> !s.meta[b.namespace].readOnly)
  }

  function WriteError(s: Store, b: BranchId): Error {
    if b !in s.branches then KeyError else PermissionError
  }

  function WithRevision(m: Metadata): Metadata {
    if m.revision.None? then m.(revision := Some(1)) else m
  }

  ghost function Upsert(s: Store, b: BranchId, key: string, text: string, vector: Option<Vector>, metadata: Metadata): Result<Store, Error>
    requires Tree(s.branches) && forall c :: c in s.pinned ==> c in s.branches
  {
    if vector == Some([]) then Err(ValueError)
    else if !Writable(s, b) then Err(WriteError(s, b))
    else Ok(Written(s, b, key, Item(text, vector, WithRevision(metadata), false)))
  }

  /** A tombstone keeps what the branch's own row held. */
  function Tombstone(s: Store, b: BranchId, key: string): Item {
    if (b, key) in s.items then s.items[(b, key)].(deleted := true)
    else Item("", None, Metadata(None, map[]), true)
  }

  ghost function Delete(s: Store, b: BranchId, key: string): Result<Store, Error>
    requires Tree(s.branches) && forall c :: c in s.pinned ==> c in s.branches
  {
    if !Writable(s, b) then Err(WriteError(s, b)) else Ok(Written(s, b, key, Tombstone(s, b, key)))
  }

  function RevisionOf(m: Metadata): int {
    if m.revision.Some? then m.revision.value else 1
  }

  /** A field update: None leaves the text or vector as it is. */
  datatype Patch = Patch(text: Option<string>, vector: Option<Option<Vector>>, fields: map<string, Value>, expected: Option<int>)

  function Patched(current: Item, patch: Patch): Item {
    Item(if patch.text.Some? then patch.text.value else current.text,
         if patch.vector.Some? then patch.vector.value else current.vector,
         Metadata(Some(RevisionOf(current.metadata) + 1), current.metadata.fields + patch.fields), false)
  }

  /** Test-and-set on the resolved row, copied to the branch before it changes. */
  ghost function PartialUpdate(s: Store, b: BranchId, key: string, patch: Patch): Result<(Store, int), Error>
    requires Tree(s.branches) && forall c :: c in s.pinned ==> c in s.branches
  {
    if !Writable(s, b) then Err(WriteError(s, b))
    else
      var current := Resolve(s.branches, s.items, b, key);
      if current.None? || current.value.deleted then Err(KeyError)
      else
        var revision := RevisionOf(current.value.metadata);
        if patch.expected.Some? && patch.expected.value != revision then Err(ValueError)
        else if Patched(current.value, patch).vector == Some([]) then Err(ValueError)
        else Ok((Written(s, b, key, Patched(current.value, patch)), revision + 1))
  }

  function CreateNamespace(s: Store, b: BranchId): Store {
    s.(branches := if b in s.branches then s.branches else s.branches[b := None],
       meta := if b.namespace in s.meta then s.meta else s.meta[b.namespace := NamespaceMeta(0, false)])
  }

  function AddBranch(s: Store, namespace: string, source: string, target: string): Result<Store, Error> {
    if BranchId(namespace, source) !in s.branches then Err(KeyError)
    else if BranchId(namespace, target) in s.branches then Err(ValueError)
    else Ok(s.(branches := s.branches[BranchId(namespace, target) := Some(source)]))
  }

  /** A change of namespace settings: the revision moves, no row does. The
      change is announced for a branch called "*". */
  ghost function Configure(s: Store, namespace: string, readOnly: bool): Result<Store, Error>
    requires Tree(s.branches) && forall c :: c in s.pinned ==> c in s.branches
  {
    if namespace !in s.meta then Err(KeyError)
    else
      var bumped := Bumped(s, namespace);
      Ok(Invalidated(bumped.(meta := bumped.meta[namespace := bumped.meta[namespace].(readOnly := readOnly)]), namespace, "*"))
  }

  ghost function Pin(s: Store, b: BranchId): Result<Store, Error>
    requires Tree(s.branches)
  {
    if b !in s.branches then Err(KeyError) else Ok(s.(pinned := s.pinned[b := ViewOf(s.branches, s.items, b)]))
  }

  function Unpin(s: Store, b: BranchId): Store {
    s.(pinned := s.pinned - {b})
  }

  // ------------------------------------------------- what operations preserve

  predicate SameRevision(s: Store, later: Store, namespace: string) {
    namespace in s.meta && namespace in later.meta && later.meta[namespace].revision == s.meta[namespace].revision
  }

  /** What derived data may rely on: a namespace whose revision stands still
      shows the same rows on every branch it already had. */
  ghost predicate RowsFollowRevisions(s: Store, later: Store)
    requires Tree(s.branches) && Tree(later.branches)
  {
    && (forall b :: b in s.branches ==> b in later.branches)
    && (forall n :: n in s.meta ==> n in later.meta && s.meta[n].revision <= later.meta[n].revision)
    && (forall b :: b in s.branches && SameRevision(s, later, b.namespace) ==>
          ViewOf(later.branches, later.items, b) == ViewOf(s.branches, s.items, b))
  }

  lemma WrittenKeeps(p: Policy, s: Store, b: BranchId, key: string, item: Item)
    requires StoreInv(p, s) && b in s.branches
    ensures StoreInv(p, Written(s, b, key, item)) && RowsFollowRevisions(s, Written(s, b, key, item))
  {
    var later := Written(s, b, key, item);
    assert later.branches == s.branches && later.items == s.items[(b, key) := item];
    forall c | c in s.branches && c.namespace != b.namespace
      ensures ViewOf(later.branches, later.items, c) == ViewOf(s.branches, s.items, c)
    {
      if Inherits(s.branches, c, b) { InheritsSameNamespace(s.branches, c, b); }
      WriteKeepsView(s.branches, s.items, b, key, item, c);
    }
    forall c | c in later.pinned
      ensures later.pinned[c] == ViewOf(later.branches, later.items, c)
    {
      if c.namespace == b.namespace {
        assert BranchId(b.namespace, b.name) == b;
        WriteKeepsView(s.branches, s.items, b, key, item, c);
      }
    }
  }

  lemma NewBranchKeeps(p: Policy, s: Store, b: BranchId, parent: Option<string>)
    requires StoreInv(p, s) && b !in s.branches && b.namespace in s.meta
    requires parent.Some? ==> BranchId(b.namespace, parent.value) in s.branches
    ensures var later := s.(branches := s.branches[b := parent]);
            Tree(later.branches) && StoreInv(p, later) && RowsFollowRevisions(s, later)
  {
    NewBranchTree(s.branches, b, parent);
    forall c | c in s.branches
      ensures ViewOf(s.branches[b := parent], s.items, c) == ViewOf(s.branches, s.items, c)
    {
      NewBranchView(s.branches, s.items, b, parent, c);
    }
  }

  lemma CreateNamespaceKeeps(p: Policy, s: Store, b: BranchId)
    requires StoreInv(p, s)
    ensures var later := CreateNamespace(s, b);
            Tree(later.branches) && StoreInv(p, later) && RowsFollowRevisions(s, later)
  {
    var named := s.(meta := CreateNamespace(s, b).meta);
    assert StoreInv(p, named);
    if b !in s.branches {
      NewBranchKeeps(p, named, b, None);
      assert CreateNamespace(s, b) == named.(branches := named.branches[b := None]);
    }
  }

  lemma ConfigureKeeps(p: Policy, s: Store, namespace: string, readOnly: bool)
    requires StoreInv(p, s) && Configure(s, namespace, readOnly).Ok?
    ensures var later := Configure(s, namespace, readOnly).value;
            StoreInv(p, later) && RowsFollowRevisions(s, later)
  {
  }

  lemma PinKeeps(p: Policy, s: Store, b: BranchId)
    requires StoreInv(p, s)
    ensures Pin(s, b).Ok? ==> StoreInv(p, Pin(s, b).value) && RowsFollowRevisions(s, Pin(s, b).value)
    ensures StoreInv(p, Unpin(s, b)) && RowsFollowRevisions(s, Unpin(s, b))
  {
  }

  /** Pins and filter cache never show on a plain call: a search returns what the
      plain scan returns, unless evaluating the filter raises. */
  lemma SearchIsPlainScan(p: Policy, s: Store, b: BranchId, request: Request, filter: Filter, principal: Option<string>)
    requires StoreInv(p, s) && PlainCall(OrEmpty(filter.value), principal)
    ensures var expected, answer := PlainScan(p, s, b, request, filter, principal), BackendSearch(p, s, b, request, filter, principal);
            answer == expected || (expected == Err(FilterError) && answer == Matching(p, s, b, request, filter.value, principal))
    ensures StoreInv(p, AfterSearch(p, s, b, request, filter, principal))
    ensures RowsFollowRevisions(s, AfterSearch(p, s, b, request, filter, principal))
  {
    PlainIsPlainer(OrEmpty(filter.value));
    if request.topK > 0 && b in s.branches {
      assert SnapshotOf(s, b) == ViewOf(s.branches, s.items, b);
      if FilterKeyOf(s, b, filter, principal) in s.filterCache {
        assert KeyedBy(FilterKeyOf(s, b, filter, principal), OrEmpty(filter.value), principal);
      } else if AllowedBy(p, s, b, filter, principal).Ok? {
        FilterStored(p, s, b, filter, principal);
      }
    }
  }

  /** The exception shows exactly when a filter that raises on a row finds an
      entry: the search answers from it. */
  lemma DiffersIff(p: Policy, s: Store, b: BranchId, request: Request, filter: Filter, principal: Option<string>)
    requires StoreInv(p, s) && PlainCall(OrEmpty(filter.value), principal)
    ensures BackendSearch(p, s, b, request, filter, principal) != PlainScan(p, s, b, request, filter, principal) <==>
            && request.topK > 0 && b in s.branches && FilterKeyOf(s, b, filter, principal) in s.filterCache
            && Raises(p, ViewOf(s.branches, s.items, b), filter, principal)
  {
    SearchIsPlainScan(p, s, b, request, filter, principal);
    PlainIsPlainer(OrEmpty(filter.value));
  }

  lemma PrincipalsDiffer(a: Option<string>, b: Option<string>)
    requires a != Some("None") && b != Some("None") && PrintedPrincipal(a) == PrintedPrincipal(b)
    ensures a == b
  {
  }

  lemma FilterStored(p: Policy, s: Store, b: BranchId, filter: Filter, principal: Option<string>)
    requires StoreInv(p, s) && PlainCall(OrEmpty(filter.value), principal) && b in s.branches
    requires AllowedBy(p, s, b, filter, principal) == Ok(AllowedKeys(p, ViewOf(s.branches, s.items, b), OrEmpty(filter.value), principal))
    ensures FiltersFresh(p, s.(filterCache := s.filterCache[FilterKeyOf(s, b, filter, principal) := AllowedBy(p, s, b, filter, principal).value]))
  {
    var k := FilterKeyOf(s, b, filter, principal);
    forall v, who | KeyedBy(k, v, who)
      ensures v == OrEmpty(filter.value) && who == principal
    {
      PlainTextsDiffer(v, OrEmpty(filter.value));
      PrincipalsDiffer(who, principal);
    }
  }

  lemma InitialInv(p: Policy)
    ensures StoreInv(p, INITIAL)
  {
    assert TreeRank(INITIAL.branches, map[MAIN := 0]);
  }
}
