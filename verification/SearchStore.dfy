/** The search store as an object: tables and derived data updated in place,
    each method proved against the operation on the store as a value. */
module SearchStores {
  import opened Prelude
  import opened Filters
  import opened SearchModel

  /** The branch and its ancestors, nearest first. */
  ghost function ChainOf(branches: Branches, b: BranchId): seq<BranchId>
    requires Tree(branches) && b in branches
    decreases RankOf(branches)[b]
  {
    [b] + if branches[b].None? then [] else ChainOf(branches, Parent(b, branches))
  }

  ghost function ChainFrom(branches: Branches, current: Option<BranchId>): seq<BranchId>
    requires Tree(branches) && (current.Some? ==> current.value in branches)
  {
    if current.None? then [] else ChainOf(branches, current.value)
  }

  lemma ChainUnfold(branches: Branches, b: BranchId)
    requires Tree(branches) && b in branches
    ensures ChainOf(branches, b) == [b] + ChainFrom(branches, if branches[b].None? then None else Some(Parent(b, branches)))
  {
  }

  /** The first row for a key along a list of levels. */
  ghost function FirstIn(items: Items, levels: seq<BranchId>, key: string): Option<Item>
    decreases |levels|
  {
    if levels == [] then None
    else if (levels[0], key) in items then Some(items[(levels[0], key)])
    else FirstIn(items, levels[1..], key)
  }

  lemma {:induction false} ResolveIsFirst(branches: Branches, items: Items, b: BranchId, key: string)
    requires Tree(branches) && b in branches
    ensures Resolve(branches, items, b, key) == FirstIn(items, ChainOf(branches, b), key)
    decreases RankOf(branches)[b]
  {
    var chain := ChainOf(branches, b);
    if (b, key) !in items && branches[b].Some? {
      ResolveIsFirst(branches, items, Parent(b, branches), key);
      assert chain[1..] == ChainOf(branches, Parent(b, branches));
    } else if branches[b].None? {
      assert chain[1..] == [];
    }
  }

  /** The rows still to come, hidden by those already collected. */
  ghost function Overlaid(view: View, items: Items, levels: seq<BranchId>, key: string): Option<Item> {
    if key in view then Some(view[key]) else FirstIn(items, levels, key)
  }

  class SearchStore {
    const policy: Policy
    var branches: Branches
    var items: Items
    var meta: map<string, NamespaceMeta>
    var pinned: map<BranchId, View>
    var filterCache: map<FilterKey, set<string>>

    ghost function State(): Store
      reads this
    {
      Store(branches, items, meta, pinned, filterCache)
    }

    ghost predicate Valid()
      reads this
    {
      StoreInv(policy, State())
    }

    constructor (policy: Policy)
      ensures Valid() && State() == INITIAL && this.policy == policy
    {
      this.policy := policy;
      branches, items, meta := map[MAIN := None], map[], map["default" := NamespaceMeta(0, false)];
      pinned, filterCache := map[], map[];
      new;
      InitialInv(policy);
    }

    /** Follows the parents upwards. The cycle check never fires. */
    method Chain(b: BranchId) returns (chain: seq<BranchId>)
      requires Tree(branches) && b in branches
      ensures chain == ChainOf(branches, b)
    {
      chain := [];
      var seen: set<BranchId> := {};
      var current := Some(b);
      ghost var rank := RankOf(branches);
      while current.Some?
        invariant current.Some? ==> current.value in branches
        invariant chain + ChainFrom(branches, current) == ChainOf(branches, b)
        invariant current.Some? ==> forall level :: level in seen ==> level in rank && rank[current.value] < rank[level]
        decreases if current.Some? then rank[current.value] + 1 else 0
      {
        var level := current.value;
        assert level !in seen;
        ChainUnfold(branches, level);
        seen := seen + {level};
        chain := chain + [level];
        current := if branches[level].None? then None else Some(Parent(level, branches));
      }
    }

    /** Adds the rows of one level under keys not taken by a nearer one. */
    method AddLevel(view: View, level: BranchId, ghost rest: seq<BranchId>) returns (view': View)
      ensures forall key :: Overlaid(view', items, rest, key) == Overlaid(view, items, [level] + rest, key)
      ensures forall key :: key in view' ==> key in view || key in KeysOf(items)
    {
      view' := view;
      var todo := set entry | entry in items && entry.0 == level;
      while todo != {}
        invariant todo <= set entry | entry in items && entry.0 == level
        invariant forall key :: key in view' <==> key in view || ((level, key) in items && (level, key) !in todo)
        invariant forall key :: key in view' ==> view'[key] == if key in view then view[key] else items[(level, key)]
        decreases todo
      {
        var entry :| entry in todo;
        assert entry == (level, entry.1);
        if entry.1 !in view' { view' := view'[entry.1 := items[entry]]; }
        todo := todo - {entry};
      }
      forall key
        ensures Overlaid(view', items, rest, key) == Overlaid(view, items, [level] + rest, key)
      {
        assert ([level] + rest)[1..] == rest;
      }
      forall key | key in view' && key !in view
        ensures key in KeysOf(items)
      {
        assert (level, key) in items;
      }
    }

    method Rows(b: BranchId) returns (r: Result<View, Error>)
      requires Tree(branches)
      ensures r == if b in branches then Ok(ViewOf(branches, items, b)) else Err(KeyError)
    {
      if b !in branches { return Err(KeyError); }
      var chain := Chain(b);
      var view: View := map[];
      for i := 0 to |chain|
        invariant forall key :: Overlaid(view, items, chain[i..], key) == FirstIn(items, chain, key)
        invariant forall key :: key in view ==> key in KeysOf(items)
      {
        assert chain[i..] == [chain[i]] + chain[i + 1..];
        view := AddLevel(view, chain[i], chain[i + 1..]);
      }
      assert chain[|chain|..] == [];
      forall key
        ensures Resolve(branches, items, b, key) == if key in view then Some(view[key]) else None
      {
        ResolveIsFirst(branches, items, b, key);
        assert Overlaid(view, items, [], key) == FirstIn(items, chain, key);
      }
      ViewIsResolution(branches, items, b);
      forall key
        ensures key in view <==> key in ViewOf(branches, items, b)
        ensures key in view ==> view[key] == ViewOf(branches, items, b)[key]
      {
        assert Resolve(branches, items, b, key) == if key in view then Some(view[key]) else None;
      }
      assert view == ViewOf(branches, items, b);
      return Ok(view);
    }

    /** Walks up from a pinned branch looking for the changed one. */
    method OnChain(candidate: BranchId, changed: string) returns (found: bool)
      requires Tree(branches) && candidate in branches
      ensures found == Inherits(branches, candidate, BranchId(candidate.namespace, changed))
    {
      var current := candidate;
      while true
        invariant current in branches && current.namespace == candidate.namespace
        invariant Inherits(branches, candidate, BranchId(candidate.namespace, changed))
               == Inherits(branches, current, BranchId(candidate.namespace, changed))
        decreases RankOf(branches)[current]
      {
        if current.name == changed { return true; }
        if branches[current].None? { return false; }
        current := Parent(current, branches);
      }
    }

    method InvalidatePins(namespace: string, changed: string)
      requires Tree(branches) && forall b :: b in pinned ==> b in branches
      modifies this`filterCache, this`pinned
      ensures State() == Invalidated(old(State()), namespace, changed)
    {
      filterCache := map k | k in filterCache && k.branch.namespace != namespace :: filterCache[k];
      DropPins(namespace, changed);
      ghost var spec := Invalidated(old(State()), namespace, changed);
      assert pinned == spec.pinned;
      assert filterCache == spec.filterCache;
    }

    method DropPins(namespace: string, changed: string)
      requires Tree(branches) && forall b :: b in pinned ==> b in branches
      modifies this`pinned
      ensures forall b :: b in pinned <==> b in old(pinned) && Unaffected(b, namespace, changed)
      ensures forall b :: b in pinned ==> pinned[b] == old(pinned)[b]
    {
      var todo := pinned.Keys;
      ghost var before := pinned;
      while todo != {}
        invariant todo <= before.Keys
        invariant forall b :: b in pinned <==> b in before && (b in todo || Unaffected(b, namespace, changed))
        invariant forall b :: b in pinned ==> pinned[b] == before[b]
        decreases todo
      {
        var b :| b in todo;
        if b.namespace == namespace {
          var found := OnChain(b, changed);
          if found { pinned := pinned - {b}; }
        }
        todo := todo - {b};
      }
    }

    ghost predicate Unaffected(b: BranchId, namespace: string, changed: string)
      requires Tree(branches) && b in branches
      reads this
    {
      !(b.namespace == namespace && Inherits(branches, b, BranchId(namespace, changed)))
    }

    method Write(b: BranchId, key: string, item: Item)
      requires Valid() && b in branches
      modifies this
      ensures Valid() && State() == Written(old(State()), b, key, item)
    {
      WrittenKeeps(policy, State(), b, key, item);
      items := items[(b, key) := item];
      if b.namespace in meta {
        meta := meta[b.namespace := meta[b.namespace].(revision := meta[b.namespace].revision + 1)];
      }
      InvalidatePins(b.namespace, b.name);
    }

    method CheckWritable(b: BranchId) returns (r: Result<(), Error>)
      ensures r == if Writable(State(), b) then Ok(()) else Err(WriteError(State(), b))
    {
      if b !in branches { return Err(KeyError); }
      if b.namespace in meta && meta[b.namespace].readOnly { return Err(PermissionError); }
      return Ok(());
    }

    method UpsertRow(b: BranchId, key: string, text: string, vector: Option<Vector>, metadata: Metadata)
        returns (r: Result<(), Error>)
      requires Valid()
      modifies this
      ensures Valid()
      ensures var spec := Upsert(old(State()), b, key, text, vector, metadata);
              if spec.Ok? then r.Ok? && State() == spec.value else r == Err(spec.error) && State() == old(State())
    {
      if vector == Some([]) { return Err(ValueError); }
      r := CheckWritable(b);
      if r.Err? { return; }
      Write(b, key, Item(text, vector, WithRevision(metadata), false));
    }

    method UpdateRow(b: BranchId, key: string, patch: Patch) returns (r: Result<int, Error>)
      requires Valid()
      modifies this
      ensures Valid()
      ensures var spec := PartialUpdate(old(State()), b, key, patch);
              if spec.Ok? then r.Ok? && (State(), r.value) == spec.value else r == Err(spec.error) && State() == old(State())
    {
      var writable := CheckWritable(b);
      if writable.Err? { return Err(writable.error); }
      var rows := Rows(b);
      ViewIsResolution(branches, items, b);
      if key !in rows.value || rows.value[key].deleted { return Err(KeyError); }
      var current := rows.value[key];
      assert Resolve(branches, items, b, key) == Some(current);
      var revision := RevisionOf(current.metadata);
      if patch.expected.Some? && patch.expected.value != revision { return Err(ValueError); }
      var item := Patched(current, patch);
      if item.vector == Some([]) { return Err(ValueError); }
      Write(b, key, item);
      return Ok(revision + 1);
    }

    method DeleteRow(b: BranchId, key: string) returns (r: Result<(), Error>)
      requires Valid()
      modifies this
      ensures Valid()
      ensures var spec := Delete(old(State()), b, key);
              if spec.Ok? then r.Ok? && State() == spec.value else r == Err(spec.error) && State() == old(State())
    {
      r := CheckWritable(b);
      if r.Err? { return; }
      Write(b, key, if (b, key) in items then items[(b, key)].(deleted := true) else Item("", None, Metadata(None, map[]), true));
    }

    method NewNamespace(b: BranchId)
      requires Valid()
      modifies this
      ensures Valid() && State() == CreateNamespace(old(State()), b)
    {
      CreateNamespaceKeeps(policy, State(), b);
      if b !in branches { branches := branches[b := None]; }
      if b.namespace !in meta { meta := meta[b.namespace := NamespaceMeta(0, false)]; }
    }

    method NewBranch(namespace: string, source: string, target: string) returns (r: Result<(), Error>)
      requires Valid()
      modifies this
      ensures Valid()
      ensures var spec := AddBranch(old(State()), namespace, source, target);
              if spec.Ok? then r.Ok? && State() == spec.value else r == Err(spec.error) && State() == old(State())
    {
      if BranchId(namespace, source) !in branches { return Err(KeyError); }
      if BranchId(namespace, target) in branches { return Err(ValueError); }
      NewBranchKeeps(policy, State(), BranchId(namespace, target), Some(source));
      branches := branches[BranchId(namespace, target) := Some(source)];
      return Ok(());
    }

    method SetReadOnly(namespace: string, readOnly: bool) returns (r: Result<(), Error>)
      requires Valid()
      modifies this
      ensures Valid()
      ensures var spec := Configure(old(State()), namespace, readOnly);
              if spec.Ok? then r.Ok? && State() == spec.value else r == Err(spec.error) && State() == old(State())
    {
      if namespace !in meta { return Err(KeyError); }
      ConfigureKeeps(policy, State(), namespace, readOnly);
      ChangeSettings(namespace, readOnly);
      return Ok(());
    }

    method ChangeSettings(namespace: string, readOnly: bool)
      requires Tree(branches) && (forall b :: b in pinned ==> b in branches) && namespace in meta
      modifies this
      ensures Ok(State()) == Configure(old(State()), namespace, readOnly)
    {
      meta := meta[namespace := NamespaceMeta(meta[namespace].revision + 1, readOnly)];
      ghost var bumped := Bumped(old(State()), namespace);
      assert meta == bumped.meta[namespace := bumped.meta[namespace].(readOnly := readOnly)];
      InvalidatePins(namespace, "*");
    }

    method PinBranch(b: BranchId) returns (r: Result<nat, Error>)
      requires Valid()
      modifies this
      ensures Valid()
      ensures var spec := Pin(old(State()), b);
              if spec.Ok? then r.Ok? && State() == spec.value && b in pinned && r.value == |pinned[b]|
              else r == Err(spec.error) && State() == old(State())
    {
      PinKeeps(policy, State(), b);
      var rows := Rows(b);
      if rows.Err? { return Err(rows.error); }
      pinned := pinned[b := rows.value];
      return Ok(|rows.value|);
    }

    method UnpinBranch(b: BranchId)
      requires Valid()
      modifies this
      ensures Valid() && State() == Unpin(old(State()), b)
    {
      PinKeeps(policy, State(), b);
      pinned := pinned - {b};
    }

    /** A pinned snapshot if there is one, else a fresh resolution: the same rows. */
    method Snapshot(b: BranchId) returns (r: Result<View, Error>)
      requires Tree(branches) && PinsFresh(State())
      ensures r == if b in branches then Ok(ViewOf(branches, items, b)) else Err(KeyError)
    {
      if b in pinned { return Ok(pinned[b]); }
      r := Rows(b);
    }

    /** Whatever is pinned or cached, a plain call returns what the plain scan of
        the resolved rows returns, unless evaluating the filter raises. */
    method Search(b: BranchId, request: Request, filter: Filter, principal: Option<string>) returns (r: Result<seq<Hit>, Error>)
      requires Valid()
      modifies this`filterCache
      ensures r == BackendSearch(policy, old(State()), b, request, filter, principal)
      ensures State() == AfterSearch(policy, old(State()), b, request, filter, principal)
      ensures PlainCall(OrEmpty(filter.value), principal) ==>
                Valid() && (r == PlainScan(policy, State(), b, request, filter, principal)
                            || PlainScan(policy, State(), b, request, filter, principal) == Err(FilterError))
    {
      if PlainCall(OrEmpty(filter.value), principal) { SearchIsPlainScan(policy, State(), b, request, filter, principal); }
      r := SearchInside(b, request, filter, principal);
    }

    method SearchInside(b: BranchId, request: Request, filter: Filter, principal: Option<string>) returns (r: Result<seq<Hit>, Error>)
      requires TablesWell(State()) && PinsFresh(State())
      modifies this`filterCache
      ensures r == BackendSearch(policy, old(State()), b, request, filter, principal)
      ensures State() == AfterSearch(policy, old(State()), b, request, filter, principal)
    {
      if request.topK <= 0 { return Ok([]); }
      var snapshot := Snapshot(b);
      if snapshot.Err? { return Err(snapshot.error); }
      var text := FilterText(OrEmpty(filter.value), false);
      if text.Err? { return Err(text.error); }
      var k := FilterKey(b, meta[b.namespace].revision, text.value, PrintedPrincipal(principal));
      if k !in filterCache {
        if Raises(policy, snapshot.value, filter, principal) { return Err(FilterError); }
        filterCache := filterCache[k := AllowedKeys(policy, snapshot.value, OrEmpty(filter.value), principal)];
      }
      var candidates := Candidates(snapshot.value, filterCache[k]);
      return Ok(policy.rank(candidates, request));
    }
  }
}
