/** Exactly which searches the filter cache of the store can never spoil, and
    searches that it does spoil. */
module SearchClashes {
  import opened Prelude
  import opened Filters
  import opened SearchModel

  const REQUEST := Request("", None, None, 10, "")
  const HIT := Hit("k", 1.0)

  function RowRank(view: View, request: Request): seq<Hit> {
    if "k" in view then [HIT] else []
  }

  ghost predicate RanksRow(p: Policy) {
    forall view, request :: p.rank(view, request) == RowRank(view, request)
  }

  /** The store with a single row under the key "k". */
  ghost function OneRow(item: Item): (s: Store)
    ensures Tree(s.branches) && MAIN in s.branches
  {
    assert TreeRank(INITIAL.branches, map[MAIN := 0]);
    Written(INITIAL, MAIN, "k", item)
  }

  lemma OneRowFacts(p: Policy, item: Item)
    ensures var s := OneRow(item);
            && StoreInv(p, s) && s.filterCache == map[] && s.pinned == map[]
            && ViewOf(s.branches, s.items, MAIN) == map["k" := item]
  {
    var s := OneRow(item);
    InitialInv(p);
    WrittenKeeps(p, INITIAL, MAIN, "k", item);
    var view := ViewOf(s.branches, s.items, MAIN);
    assert KeysOf(s.items) == {"k"};
    assert Resolve(s.branches, s.items, MAIN, "k") == Some(item);
  }

  function Shown(p: Policy, item: Item, v: Value, principal: Option<string>): Result<seq<Hit>, Error> {
    Ok(if Visible(p, item, principal) && p.matches(item.metadata, v) then [HIT] else [])
  }

  predicate RaisesOn(p: Policy, item: Item, filter: Filter, principal: Option<string>) {
    Visible(p, item, principal) && p.raises(item.metadata, Filter(OrEmpty(filter.value), filter.order))
  }

  /** A search of the row, and what it would return without the filter cache. */
  lemma FirstSearch(p: Policy, item: Item, s: Store, filter: Filter, principal: Option<string>, request: Request)
    requires RanksRow(p) && request.topK > 0 && s == OneRow(item).(filterCache := s.filterCache)
    ensures PlainScan(p, s, MAIN, request, filter, principal) ==
            if RaisesOn(p, item, filter, principal) then Err(FilterError) else Shown(p, item, OrEmpty(filter.value), principal)
    ensures Printable(OrEmpty(filter.value), false) && FilterKeyOf(s, MAIN, filter, principal) !in s.filterCache && !RaisesOn(p, item, filter, principal) ==>
              && BackendSearch(p, s, MAIN, request, filter, principal) == Shown(p, item, OrEmpty(filter.value), principal)
              && AllowedBy(p, s, MAIN, filter, principal) == Ok(AllowedKeys(p, map["k" := item], OrEmpty(filter.value), principal))
  {
    OneRowFacts(p, item);
    var view := ViewOf(s.branches, s.items, MAIN);
    assert view == map["k" := item] && "k" in view && SnapshotOf(s, MAIN) == view;
    RowShown(p, item, view, OrEmpty(filter.value), principal, request);
  }

  /** Of two searches with the same texts the second is answered like the first. */
  lemma SecondSearch(p: Policy, item: Item, first: Filter, who: Option<string>, second: Filter, other: Option<string>, request: Request)
    requires RanksRow(p) && request.topK > 0 && !RaisesOn(p, item, first, who)
    requires Printable(OrEmpty(first.value), false) && Printable(OrEmpty(second.value), false)
    requires Print(OrEmpty(first.value)) == Print(OrEmpty(second.value)) && PrintedPrincipal(who) == PrintedPrincipal(other)
    ensures var after := AfterSearch(p, OneRow(item), MAIN, request, first, who);
            && BackendSearch(p, after, MAIN, request, second, other) == Shown(p, item, OrEmpty(first.value), who)
            && PlainScan(p, after, MAIN, request, second, other) ==
               if RaisesOn(p, item, second, other) then Err(FilterError) else Shown(p, item, OrEmpty(second.value), other)
  {
    var s := OneRow(item);
    OneRowFacts(p, item);
    var after := AfterSearch(p, s, MAIN, request, first, who);
    FirstSearch(p, item, s, first, who, request);
    FirstSearch(p, item, after, second, other, request);
    assert FilterKeyOf(after, MAIN, second, other) == FilterKeyOf(s, MAIN, first, who);
    RowShown(p, item, map["k" := item], OrEmpty(first.value), who, request);
  }

  lemma RowShown(p: Policy, item: Item, view: View, v: Value, principal: Option<string>, request: Request)
    requires RanksRow(p) && view == map["k" := item]
    ensures Ok(p.rank(Candidates(view, AllowedKeys(p, view, v, principal)), request)) == Shown(p, item, v, principal)
  {
    assert "k" in view && view["k"] == item;
    assert "k" in AllowedKeys(p, view, v, principal) <==> Visible(p, item, principal) && p.matches(item.metadata, v);
    assert "k" in Candidates(view, AllowedKeys(p, view, v, principal)) <==> "k" in AllowedKeys(p, view, v, principal);
  }

  // ------------------------------------------------------- the exact condition

  /** In every store left by plain calls a search with this filter and principal
      returns what the plain scan returns whenever that answers. */
  ghost predicate AlwaysPlain(f: Value, principal: Option<string>) {
    forall p: Policy, s: Store, b: BranchId, request: Request, filter: Filter ::
      StoreInv(p, s) && filter.value == f && PlainScan(p, s, b, request, filter, principal).Ok? ==>
        BackendSearch(p, s, b, request, filter, principal) == PlainScan(p, s, b, request, filter, principal)
  }

  /** The filter cache is harmless exactly for filters built from string keys,
      lists and scalars, and principals other than "None". */
  lemma AlwaysPlainIff(f: Value, principal: Option<string>)
    requires Listed(OrEmpty(f))
    ensures AlwaysPlain(f, principal) <==> Plain(OrEmpty(f)) && principal != Some("None")
  {
    if PlainCall(OrEmpty(f), principal) {
      forall p: Policy, s: Store, b: BranchId, request: Request, filter: Filter
        | StoreInv(p, s) && filter.value == f && PlainScan(p, s, b, request, filter, principal).Ok?
        ensures BackendSearch(p, s, b, request, filter, principal) == PlainScan(p, s, b, request, filter, principal)
      {
        SearchIsPlainScan(p, s, b, request, filter, principal);
      }
    } else {
      NotAlwaysPlain(f, principal);
    }
  }

  /** Shows a row to one principal with one filter only. */
  ghost function Only(v: Value, principal: Option<string>): Policy {
    Policy((m: Metadata, who: Option<string>) => who == principal, (m: Metadata, x: Value) => x == v,
           (m: Metadata, f: Filter) => false, (view: View, request: Request) => RowRank(view, request))
  }

  const BLANK := Item("text", None, Metadata(None, map[]), false)

  /** What looks like the call and is plain. */
  function Double(principal: Option<string>): Option<string> {
    if principal == Some("None") then None else principal
  }

  lemma NotAlwaysPlain(f: Value, principal: Option<string>)
    requires Listed(OrEmpty(f)) && !PlainCall(OrEmpty(f), principal)
    ensures !AlwaysPlain(f, principal)
  {
    var p, filter := Only(OrEmpty(f), principal), Filter(f, []);
    if !Printable(OrEmpty(f), false) {
      OneRowFacts(p, BLANK);
      Unprintable(p, filter, principal);
    } else {
      Spoiled(filter, principal, REQUEST);
      Refutes(p, LookAlike(filter, principal, REQUEST), filter, principal);
    }
  }

  /** The store after a plain search with the same texts. */
  ghost function LookAlike(filter: Filter, principal: Option<string>, request: Request): Store {
    AfterSearch(Only(OrEmpty(filter.value), principal), OneRow(BLANK), MAIN, request, Filter(Plainer(OrEmpty(filter.value)), []), Double(principal))
  }

  /** The plain search leaves an entry that spoils the other one. */
  lemma Spoiled(filter: Filter, principal: Option<string>, request: Request)
    requires Listed(OrEmpty(filter.value)) && Printable(OrEmpty(filter.value), false) && !PlainCall(OrEmpty(filter.value), principal) && request.topK > 0
    ensures var p, s := Only(OrEmpty(filter.value), principal), LookAlike(filter, principal, request);
            && StoreInv(p, s) && MAIN in s.branches && PlainScan(p, s, MAIN, request, filter, principal) == Ok([HIT])
            && BackendSearch(p, s, MAIN, request, filter, principal) == Ok([])
  {
    var v := OrEmpty(filter.value);
    var p, first, who := Only(v, principal), Filter(Plainer(v), []), Double(principal);
    LooksPlain(v);
    SecondSearch(p, BLANK, first, who, filter, principal, request);
    PlainSearchKeeps(p, first, who, request);
  }

  lemma PlainSearchKeeps(p: Policy, first: Filter, who: Option<string>, request: Request)
    requires PlainCall(OrEmpty(first.value), who)
    ensures var after := AfterSearch(p, OneRow(BLANK), MAIN, request, first, who); StoreInv(p, after) && MAIN in after.branches
  {
    OneRowFacts(p, BLANK);
    SearchIsPlainScan(p, OneRow(BLANK), MAIN, request, first, who);
  }

  lemma LooksPlain(v: Value)
    requires Listed(v) && OrEmpty(v) == v && Printable(v, false)
    ensures var w := Plainer(v); Plain(w) && OrEmpty(w) == w && Printable(w, false) && Print(w) == Print(v) && (Plain(v) <==> w == v)
  {
    PlainerIsNotEmpty(v);
    ListedIsPlain(v);
    if Plain(v) { PlainIsPlainer(v); }
    PlainIsPlainer(Plainer(v));
    PlainerPrintsAlike(v);
  }

  lemma Refutes(p: Policy, s: Store, filter: Filter, principal: Option<string>)
    requires StoreInv(p, s) && PlainScan(p, s, MAIN, REQUEST, filter, principal).Ok?
    requires BackendSearch(p, s, MAIN, REQUEST, filter, principal) != PlainScan(p, s, MAIN, REQUEST, filter, principal)
    ensures !AlwaysPlain(filter.value, principal)
  {
  }

  lemma Unprintable(p: Policy, filter: Filter, principal: Option<string>)
    requires RanksRow(p) && StoreInv(p, OneRow(BLANK)) && !Printable(OrEmpty(filter.value), false)
    requires forall m, g :: !p.raises(m, g)
    ensures !AlwaysPlain(filter.value, principal)
  {
    Refutes(p, OneRow(BLANK), filter, principal);
  }

  lemma PlainerIsNotEmpty(v: Value)
    requires OrEmpty(v) == v && Printable(v, false)
    ensures OrEmpty(Plainer(v)) == Plainer(v)
  {
    match v
    case Tuple(items) => assert |PlainerItems(items)| == |items|;
    case List(items) => assert |PlainerItems(items)| == |items|;
    case Dict(entries) => assert |PlainerEntries(entries)| == |entries|;
    case _ =>
  }

  // -------------------------------------------------- the program's own matcher

  /** How one entry of a mapping filter comes out on a row; evaluating it may raise. */
  datatype Verdict = Holds | Fails | Breaks

  function If(c: bool): Verdict {
    if c then Holds else Fails
  }

  predicate Within(s: string, t: string) {
    s <= t || (t != [] && Within(s, t[1..]))
  }

  /** `x in xs`. */
  function Member(x: Value, xs: Value): Verdict {
    match xs
    case List(items) => If(x in items)
    case Tuple(items) => If(x in items)
    case Text(s) => if x.Text? then If(Within(x.text, s)) else Breaks
    case Dict(entries) => if AsKey(x).None? then Breaks else If(Get(entries, AsKey(x).value).Some?)
    case _ => Breaks
  }

  function Elements(xs: Value): Option<seq<Value>> {
    match xs
    case List(items) => Some(items)
    case Tuple(items) => Some(items)
    case Text(s) => Some(seq(|s|, i requires 0 <= i < |s| => Text([s[i]])))
    case Dict(entries) => Some(seq(|entries|, i requires 0 <= i < |entries| => KeyValue(entries[i].key)))
    case _ => None
  }

  function AllIn(xs: Value, values: seq<Value>): Verdict {
    if Elements(xs).None? then Breaks else If(forall x :: x in Elements(xs).value ==> x in values)
  }

  function And(first: Verdict, second: Verdict): Verdict {
    if first.Holds? then second else first
  }

  function TestOf(actual: Value, expected: Value): Verdict {
    if expected.Dict? then
      var within := Get(expected.entries, Name("in"));
      var contains := Get(expected.entries, Name("contains"));
      var eq := Get(expected.entries, Name("eq"));
      And(if within.Some? then Member(actual, within.value) else Holds,
          And(if contains.Some? then AllIn(contains.value, if actual.List? then actual.items else [actual]) else Holds,
              if eq.Some? then If(actual == eq.value) else Holds))
    else if actual.List? then
      if expected.List? then
        if forall x :: x in expected.items ==> Hashable(x) then AllIn(expected, actual.items) else Breaks
      else Member(expected, actual)
    else If(actual == expected)
  }

  function Actual(m: Metadata, k: Key): Value {
    if k.Name? && k.name in m.fields then m.fields[k.name] else Null
  }

  /** The entries are looked at in the order their keys were inserted, up to the
      first that does not hold. */
  function FirstVerdict(m: Metadata, entries: seq<Entry>, order: seq<Key>): Verdict {
    if order == [] then Holds
    else
      var expected := Get(entries, order[0]);
      And(if expected.Some? then TestOf(Actual(m, order[0]), expected.value) else Holds, FirstVerdict(m, entries, order[1..]))
  }

  /** Mapping filters as the program evaluates them, on rows open to everyone. */
  ghost function Mappings(): Policy {
    Policy((m: Metadata, who: Option<string>) => true,
           (m: Metadata, v: Value) => v.Dict? && forall e :: e in v.entries ==> TestOf(Actual(m, e.key), e.value).Holds?,
           (m: Metadata, f: Filter) => f.value.Dict? && FirstVerdict(m, f.value.entries, f.order).Breaks?,
           (view: View, request: Request) => RowRank(view, request))
  }

  // ------------------------------------------------------------- the clashes

  /** Searching for the second filter after the first misses the row it matches. */
  ghost predicate Hides(item: Item, first: Value, second: Value) {
    var after := AfterSearch(Mappings(), OneRow(item), MAIN, REQUEST, Single(first), None);
    && BackendSearch(Mappings(), after, MAIN, REQUEST, Single(second), None) == Ok([])
    && PlainScan(Mappings(), after, MAIN, REQUEST, Single(second), None) == Ok([HIT])
  }

  /** A filter of one key. */
  function Single(v: Value): Filter {
    Filter(v, if v.Dict? && |v.entries| == 1 then [v.entries[0].key] else [])
  }

  function One(k: Key, v: Value): Value {
    Dict([Entry(k, v)])
  }

  const TAGGED := Item("text", None, Metadata(None, map["tags" := List([Text("a")]), "1" := Text("x")]), false)

  lemma HidesWhen(item: Item, k: Key, v: Value, j: Key, w: Value)
    requires !item.deleted && KeyText(k) == KeyText(j) && Print(v) == Print(w)
    requires !k.ObjectKey? && !j.ObjectKey? && Printable(v, false) && Printable(w, false)
    requires TestOf(Actual(item.metadata, k), v) == Fails && TestOf(Actual(item.metadata, j), w) == Holds
    ensures Hides(item, One(k, v), One(j, w))
  {
    PrintsOne(k, v, j, w);
    OneTested(item, k, v);
    OneTested(item, j, w);
    SecondSearch(Mappings(), item, Single(One(k, v)), None, Single(One(j, w)), None, REQUEST);
  }

  lemma PrintsOne(k: Key, v: Value, j: Key, w: Value)
    requires KeyText(k) == KeyText(j) && Print(v) == Print(w)
    ensures Print(One(k, v)) == Print(One(j, w))
  {
    assert PrintEntry(Entry(k, v)) == PrintEntry(Entry(j, w));
    assert [Entry(k, v)][1..] == [Entry(j, w)][1..] == [];
  }

  lemma GetOne(k: Key, v: Value, j: Key)
    ensures Get(One(k, v).entries, j) == if j == k then Some(v) else None
  {
    assert One(k, v).entries[1..] == [];
  }

  /** A filter of one key is decided by its only test. */
  lemma OneVerdict(m: Metadata, k: Key, v: Value)
    ensures FirstVerdict(m, One(k, v).entries, [k]) == TestOf(Actual(m, k), v)
    ensures Mappings().matches(m, One(k, v)) <==> TestOf(Actual(m, k), v).Holds?
    ensures Single(One(k, v)) == Filter(One(k, v), [k])
  {
    GetOne(k, v, k);
    assert [k][1..] == [];
    assert One(k, v).entries[0] in One(k, v).entries;
  }

  lemma OneTested(item: Item, k: Key, v: Value)
    requires !k.ObjectKey? && Printable(v, false) && !item.deleted && !TestOf(Actual(item.metadata, k), v).Breaks?
    ensures var f := Single(One(k, v));
            && OrEmpty(f.value) == One(k, v) && Printable(One(k, v), false) && !RaisesOn(Mappings(), item, f, None)
            && Shown(Mappings(), item, One(k, v), None) == Ok(if TestOf(Actual(item.metadata, k), v).Holds? then [HIT] else [])
  {
    OneVerdict(item.metadata, k, v);
  }

  /** A tuple and a list print alike and match differently: the second search is
      answered from the entry of the first. */
  lemma TupleClash()
    ensures Hides(TAGGED, One(Name("tags"), Tuple([Text("a")])), One(Name("tags"), List([Text("a")])))
  {
    var a := Text("a");
    assert a in [a] && List([a]).items == [a];
    assert TestOf(List([a]), Tuple([a])) == Fails && TestOf(List([a]), List([a])) == Holds;
    HidesWhen(TAGGED, Name("tags"), Tuple([a]), Name("tags"), List([a]));
  }

  /** The same below a test for equality. */
  lemma EqClash()
    ensures Hides(TAGGED, One(Name("tags"), One(Name("eq"), Tuple([Text("a")]))), One(Name("tags"), One(Name("eq"), List([Text("a")]))))
  {
    var v, w := Tuple([Text("a")]), List([Text("a")]);
    EqVerdict(w, v);
    EqVerdict(w, w);
    PrintsOne(Name("eq"), v, Name("eq"), w);
    assert Actual(TAGGED.metadata, Name("tags")) == w;
    HidesWhen(TAGGED, Name("tags"), One(Name("eq"), v), Name("tags"), One(Name("eq"), w));
  }

  /** The same for a number and a string as keys. */
  lemma KeyClash()
    ensures Hides(TAGGED, One(NumberKey("1"), Text("x")), One(Name("1"), Text("x")))
  {
    HidesWhen(TAGGED, NumberKey("1"), Text("x"), Name("1"), Text("x"));
  }

  lemma EqVerdict(actual: Value, v: Value)
    ensures TestOf(actual, One(Name("eq"), v)) == If(actual == v)
  {
    GetOne(Name("eq"), v, Name("in"));
    GetOne(Name("eq"), v, Name("contains"));
    GetOne(Name("eq"), v, Name("eq"));
    assert "eq"[0] != "in"[0];
  }

  /** A principal called "None" is answered from the entry left by a search without
      principal, here with a row it would not be shown. */
  lemma PrintedPrincipalClash()
    ensures var p, f := Only(EMPTY_FILTER, None), Filter(EMPTY_FILTER, []);
            var after := AfterSearch(p, OneRow(BLANK), MAIN, REQUEST, f, None);
            && BackendSearch(p, after, MAIN, REQUEST, f, Some("None")) == Ok([HIT])
            && PlainScan(p, after, MAIN, REQUEST, f, Some("None")) == Ok([])
  {
    SecondSearch(Only(EMPTY_FILTER, None), BLANK, Filter(EMPTY_FILTER, []), None, Filter(EMPTY_FILTER, []), Some("None"), REQUEST);
  }

  /** A test that fails on a row without the field, and one that raises. */
  function Mixed(order: seq<Key>): Filter {
    Filter(Dict([Entry(Name("a"), Text("x")), Entry(Name("b"), One(Name("in"), Number("5")))]), order)
  }

  const AB := [Name("a"), Name("b")]
  const BA := [Name("b"), Name("a")]

  /** The same filter with its keys inserted the other way round raises, but is
      answered from the entry. */
  lemma InsertionOrderClash()
    ensures var after := AfterSearch(Mappings(), OneRow(BLANK), MAIN, REQUEST, Mixed(AB), None);
            && BackendSearch(Mappings(), after, MAIN, REQUEST, Mixed(BA), None) == Ok([])
            && PlainScan(Mappings(), after, MAIN, REQUEST, Mixed(BA), None) == Err(FilterError)
  {
    MixedVerdicts();
    SecondSearch(Mappings(), BLANK, Mixed(AB), None, Mixed(BA), None, REQUEST);
  }

  lemma MixedVerdicts()
    ensures var v := Mixed([]).value;
            && !Mappings().matches(BLANK.metadata, v) && Printable(v, false) && OrEmpty(v) == v
            && FirstVerdict(BLANK.metadata, v.entries, AB) == Fails && FirstVerdict(BLANK.metadata, v.entries, BA) == Breaks
  {
    var m, e, t := BLANK.metadata, Mixed([]).value.entries, One(Name("in"), Number("5"));
    assert e[0] == Entry(Name("a"), Text("x")) && e[0] in e && e[1..] == [Entry(Name("b"), t)];
    assert Get(e, Name("a")) == Some(Text("x"));
    assert Get(e, Name("b")) == Get(One(Name("b"), t).entries, Name("b"));
    GetOne(Name("b"), t, Name("b"));
    GetOne(Name("in"), Number("5"), Name("in"));
    assert TestOf(Null, t) == Breaks && TestOf(Null, Text("x")) == Fails;
    assert Actual(m, Name("a")) == Null && Actual(m, Name("b")) == Null;
  }
}
