/** Search filters as the values a caller passes, and the texts that caches key
    them by. JSON writes lists and tuples alike, and string keys like numbers. */
module Filters {
  import opened Prelude

  datatype Error = KeyError | ValueError | PermissionError | RuntimeError | TypeError | FilterError

  predicate Delimiter(c: char) {
    c == ',' || c == ']' || c == '}' || c == ':'
  }

  predicate StartsNumber(c: char) {
    ('0' <= c && c <= '9') || c == '-' || c == 'N' || c == 'I'
  }

  /** What Python prints for a number; it reads back as the same number. */
  type Numeral = s: string | s != [] && StartsNumber(s[0]) && forall c :: c in s ==> !Delimiter(c) witness "0"

  datatype Key = Name(name: string) | NumberKey(literal: Numeral) | FlagKey(flag: bool) | NullKey | ObjectKey(of: Value)

  /** A mapping is the list of its entries in the order of their printed keys.
      `Other` is any object JSON cannot write, like a date, with its string form. */
  datatype Value =
    | Null
    | Flag(flag: bool)
    | Number(literal: Numeral)
    | Text(text: string)
    | List(items: seq<Value>)
    | Tuple(items: seq<Value>)
    | Dict(entries: seq<Entry>)
    | Other(shown: string)

  datatype Entry = Entry(key: Key, value: Value)

  /** A filter as passed: its value, and the order in which its keys were
      inserted, which decides what is evaluated first. */
  datatype Filter = Filter(value: Value, order: seq<Key>)

  const EMPTY_FILTER := Dict([])

  /** `filters or {}`. */
  function OrEmpty(v: Value): Value {
    if Falsy(v) then EMPTY_FILTER else v
  }

  predicate Falsy(v: Value) {
    match v
    case Null => true
    case Flag(b) => !b
    case Number(l) => l == "0" || l == "0.0" || l == "-0.0"
    case Text(s) => s == []
    case List(items) => items == []
    case Tuple(items) => items == []
    case Dict(entries) => entries == []
    case Other(_) => false
  }

  // ---------------------------------------------------------------- printing

  function Hex(n: nat): char
    requires n < 16
  {
    "0123456789abcdef"[n]
  }

  function Escape(c: char): string {
    if c == '\"' || c == '\\' then ['\\', c]
    else if c == '\n' then ['\\', 'n']
    else if c == '\r' then ['\\', 'r']
    else if c == '\t' then ['\\', 't']
    else if c as int == 8 then ['\\', 'b']
    else if c as int == 12 then ['\\', 'f']
    else if c < ' ' then ['\\', 'u', '0', '0', Hex(c as int / 16), Hex(c as int % 16)]
    else [c]
  }

  function Escaped(s: string): string {
    if s == [] then [] else Escape(s[0]) + Escaped(s[1..])
  }

  function Quoted(s: string): string {
    ['\"'] + Escaped(s) + ['\"']
  }

  function KeyText(k: Key): string {
    match k
    case Name(s) => s
    case NumberKey(l) => l
    case FlagKey(b) => if b then "true" else "false"
    case NullKey => "null"
    case ObjectKey(_) => ""
  }

  function Print(v: Value): string
    decreases v
  {
    match v
    case Null => "null"
    case Flag(b) => if b then "true" else "false"
    case Number(l) => l
    case Text(s) => Quoted(s)
    case List(items) => ['['] + PrintItems(items)
    case Tuple(items) => ['['] + PrintItems(items)
    case Dict(entries) => ['{'] + PrintEntries(entries)
    case Other(shown) => Quoted(shown)
  }

  function PrintItems(items: seq<Value>): string
    decreases items
  {
    if items == [] then [']'] else Print(items[0]) + PrintMore(items[1..])
  }

  function PrintMore(items: seq<Value>): string
    decreases items
  {
    if items == [] then [']'] else [','] + (Print(items[0]) + PrintMore(items[1..]))
  }

  function PrintEntry(e: Entry): string
    decreases e
  {
    Quoted(KeyText(e.key)) + ([':'] + Print(e.value))
  }

  function PrintEntries(entries: seq<Entry>): string
    decreases entries
  {
    if entries == [] then ['}'] else PrintEntry(entries[0]) + PrintRest(entries[1..])
  }

  function PrintRest(entries: seq<Entry>): string
    decreases entries
  {
    if entries == [] then ['}'] else [','] + (PrintEntry(entries[0]) + PrintRest(entries[1..]))
  }

  /** Keys that sorting can compare and JSON can write. */
  predicate SortableKeys(entries: seq<Entry>) {
    || (forall e :: e in entries ==> e.key.Name?)
    || (forall e :: e in entries ==> e.key.NumberKey? || e.key.FlagKey?)
    || (|entries| == 1 && entries[0].key.NullKey?)
  }

  /** JSON can write the value; `any` allows it to write objects by their string form. */
  predicate Printable(v: Value, any: bool)
    decreases v
  {
    match v
    case List(items) => forall x :: x in items ==> Printable(x, any)
    case Tuple(items) => forall x :: x in items ==> Printable(x, any)
    case Dict(entries) => SortableKeys(entries) && forall e :: e in entries ==> Printable(e.value, any)
    case Other(_) => any
    case _ => true
  }

  function FilterText(v: Value, any: bool): Result<string, Error> {
    if Printable(v, any) then Ok(Print(v)) else Err(TypeError)
  }

  // ------------------------------------------------------------ plain filters

  /** The order of Python's strings. */
  predicate Before(s: string, t: string) {
    t != [] && (s == [] || s[0] < t[0] || (s[0] == t[0] && Before(s[1..], t[1..])))
  }

  predicate Ascending(entries: seq<Entry>) {
    forall i, j :: 0 <= i < j < |entries| ==> Before(KeyText(entries[i].key), KeyText(entries[j].key))
  }

  /** Built from mappings with string keys, lists and scalars only. */
  predicate Plain(v: Value)
    decreases v
  {
    match v
    case List(items) => forall x :: x in items ==> Plain(x)
    case Tuple(_) => false
    case Dict(entries) => Ascending(entries) && forall e :: e in entries ==> e.key.Name? && Plain(e.value)
    case Other(_) => false
    case _ => true
  }

  /** Mappings list their entries in the order of the printed keys. */
  predicate Listed(v: Value)
    decreases v
  {
    match v
    case List(items) => forall x :: x in items ==> Listed(x)
    case Tuple(items) => forall x :: x in items ==> Listed(x)
    case Dict(entries) => Ascending(entries) && forall e :: e in entries ==> Listed(e.value)
    case _ => true
  }

  /** The plain filter that prints the same. */
  function Plainer(v: Value): Value
    decreases v
  {
    match v
    case List(items) => List(PlainerItems(items))
    case Tuple(items) => List(PlainerItems(items))
    case Dict(entries) => Dict(PlainerEntries(entries))
    case Other(shown) => Text(shown)
    case _ => v
  }

  function PlainerItems(items: seq<Value>): (r: seq<Value>)
    ensures |r| == |items| && forall i :: 0 <= i < |items| ==> r[i] == Plainer(items[i])
    decreases items
  {
    if items == [] then [] else [Plainer(items[0])] + PlainerItems(items[1..])
  }

  function PlainerEntries(entries: seq<Entry>): (r: seq<Entry>)
    ensures |r| == |entries| && forall i :: 0 <= i < |entries| ==> r[i] == PlainerEntry(entries[i])
    decreases entries
  {
    if entries == [] then [] else [PlainerEntry(entries[0])] + PlainerEntries(entries[1..])
  }

  function PlainerEntry(e: Entry): Entry
    decreases e
  {
    Entry(Name(KeyText(e.key)), Plainer(e.value))
  }

  lemma {:induction false} PlainIsPlainer(v: Value)
    requires Plain(v)
    ensures Plainer(v) == v && Listed(v) && Printable(v, false) && Printable(v, true)
    decreases v
  {
    match v
    case List(items) =>
      forall x | x in items
        ensures Plainer(x) == x && Listed(x) && Printable(x, false) && Printable(x, true)
      {
        PlainIsPlainer(x);
      }
      assert PlainerItems(items) == items;
    case Dict(entries) =>
      forall e | e in entries
        ensures Plainer(e.value) == e.value && Listed(e.value) && Printable(e.value, false) && Printable(e.value, true)
      {
        PlainIsPlainer(e.value);
      }
      assert PlainerEntries(entries) == entries;
    case _ =>
  }

  lemma {:induction false} ListedIsPlain(v: Value)
    requires Listed(v)
    ensures Plain(Plainer(v))
    decreases v
  {
    match v
    case List(items) => ListedItems(items);
    case Tuple(items) => ListedItems(items);
    case Dict(entries) =>
      forall e | e in entries
        ensures Plain(Plainer(e.value))
      {
        ListedIsPlain(e.value);
      }
    case _ =>
  }

  lemma {:induction false} ListedItems(items: seq<Value>)
    requires forall x :: x in items ==> Listed(x)
    ensures Plain(List(PlainerItems(items)))
    decreases items
  {
    forall x | x in items
      ensures Plain(Plainer(x))
    {
      ListedIsPlain(x);
    }
  }

  /** A value and its plain form print the same. */
  lemma {:induction false} PlainerPrintsAlike(v: Value)
    ensures Print(Plainer(v)) == Print(v)
    decreases v
  {
    match v
    case List(items) => ItemsPrintAlike(items);
    case Tuple(items) => ItemsPrintAlike(items);
    case Dict(entries) => EntriesPrintAlike(entries);
    case _ =>
  }

  lemma {:induction false} ItemsPrintAlike(items: seq<Value>)
    ensures PrintItems(PlainerItems(items)) == PrintItems(items)
    ensures PrintMore(PlainerItems(items)) == PrintMore(items)
    decreases items
  {
    if items != [] {
      PlainerPrintsAlike(items[0]);
      ItemsPrintAlike(items[1..]);
      assert PlainerItems(items)[1..] == PlainerItems(items[1..]);
    }
  }

  lemma {:induction false} EntriesPrintAlike(entries: seq<Entry>)
    ensures PrintEntries(PlainerEntries(entries)) == PrintEntries(entries)
    ensures PrintRest(PlainerEntries(entries)) == PrintRest(entries)
    decreases entries
  {
    if entries != [] {
      EntryPrintsAlike(entries[0]);
      EntriesPrintAlike(entries[1..]);
      assert PlainerEntries(entries)[1..] == PlainerEntries(entries[1..]);
    }
  }

  lemma {:induction false} EntryPrintsAlike(e: Entry)
    ensures PrintEntry(PlainerEntry(e)) == PrintEntry(e)
    decreases e
  {
    PlainerPrintsAlike(e.value);
  }

  // ------------------------------------------------------ reading texts back

  lemma EscapeReads(c: char, d: char, x: string, y: string)
    requires Escape(c) + x == Escape(d) + y
    ensures c == d && x == y
  {
    var s, t := Escape(c) + x, Escape(d) + y;
    assert s[0] == t[0];
    if c != d {
      assert s[0] == '\\';
      assert s[1] == t[1];
      assert s[1] == 'u';
      assert s[4] == t[4] && s[5] == t[5];
      HexReads(c as int / 16, d as int / 16);
      HexReads(c as int % 16, d as int % 16);
      assert false;
    }
    assert x == s[|Escape(c)|..] && y == t[|Escape(d)|..];
  }

  lemma HexReads(m: nat, n: nat)
    requires m < 16 && n < 16 && Hex(m) == Hex(n)
    ensures m == n
  {
  }

  lemma EscapedStep(s: string, x: string)
    requires s != []
    ensures Escaped(s) + ['\"'] + x == Escape(s[0]) + (Escaped(s[1..]) + ['\"'] + x)
    ensures (Escaped(s) + ['\"'] + x)[0] != '\"'
  {
  }

  /** A quoted string ends at its own closing quote. */
  lemma {:induction false} EscapedReads(s: string, t: string, x: string, y: string)
    requires Escaped(s) + ['\"'] + x == Escaped(t) + ['\"'] + y
    ensures s == t && x == y
    decreases |s|
  {
    if s != [] { EscapedStep(s, x); }
    if t != [] { EscapedStep(t, y); }
    if s == [] {
      RestReads([] + ['\"'], x, y);
    } else {
      EscapeReads(s[0], t[0], Escaped(s[1..]) + ['\"'] + x, Escaped(t[1..]) + ['\"'] + y);
      EscapedReads(s[1..], t[1..], x, y);
      assert s == [s[0]] + s[1..] && t == [t[0]] + t[1..];
    }
  }

  lemma QuotedReads(s: string, t: string, x: string, y: string)
    requires Quoted(s) + x == Quoted(t) + y
    ensures s == t && x == y
  {
    assert (Quoted(s) + x)[1..] == Escaped(s) + ['\"'] + x;
    assert (Quoted(t) + y)[1..] == Escaped(t) + ['\"'] + y;
    EscapedReads(s, t, x, y);
  }

  /** Nothing follows, or something that ends a number. */
  predicate Stops(x: string) {
    x == [] || Delimiter(x[0])
  }

  lemma NumeralNotLonger(l: Numeral, k: Numeral, x: string, y: string)
    requires l + x == k + y && Stops(x)
    ensures |k| <= |l|
  {
    assert x != [] ==> (l + x)[|l|] == x[0];
    assert forall i :: 0 <= i < |k| ==> (k + y)[i] in k;
  }

  lemma NumeralReads(l: Numeral, k: Numeral, x: string, y: string)
    requires l + x == k + y && Stops(x) && Stops(y)
    ensures l == k && x == y
  {
    NumeralNotLonger(l, k, x, y);
    NumeralNotLonger(k, l, y, x);
    assert l == (l + x)[..|l|] && k == (k + y)[..|k|];
    assert x == (l + x)[|l|..] && y == (k + y)[|k|..];
  }

  /** The first character says what kind of value follows. */
  lemma FirstChar(v: Value)
    ensures Print(v) != []
    ensures v.Null? ==> Print(v)[0] == 'n'
    ensures v.Flag? ==> Print(v)[0] == if v.flag then 't' else 'f'
    ensures v.Number? ==> StartsNumber(Print(v)[0])
    ensures v.Text? || v.Other? ==> Print(v)[0] == '\"'
    ensures v.List? || v.Tuple? ==> Print(v)[0] == '['
    ensures v.Dict? ==> Print(v)[0] == '{'
  {
  }

  lemma SameFirst(v: Value, w: Value, x: string, y: string)
    requires Print(v) + x == Print(w) + y
    ensures v.Null? <==> w.Null?
    ensures v.Flag? <==> w.Flag?
    ensures v.Flag? ==> v == w
    ensures v.Number? <==> w.Number?
    ensures v.Text? || v.Other? <==> w.Text? || w.Other?
    ensures v.List? || v.Tuple? <==> w.List? || w.Tuple?
    ensures v.Dict? <==> w.Dict?
  {
    FirstChar(v);
    FirstChar(w);
    assert (Print(v) + x)[0] == Print(v)[0] && (Print(w) + y)[0] == Print(w)[0];
  }

  /** Values that print the same have the same plain form, whatever follows them. */
  lemma {:induction false} ValueReads(v: Value, w: Value, x: string, y: string)
    requires Print(v) + x == Print(w) + y && Stops(x) && Stops(y)
    ensures Plainer(v) == Plainer(w) && x == y
    decreases v
  {
    SameFirst(v, w, x, y);
    match v
    case Null => RestReads(Print(v), x, y);
    case Flag(_) => RestReads(Print(v), x, y);
    case Number(l) => NumeralReads(l, w.literal, x, y);
    case Text(_) => QuotedReads(v.text, if w.Text? then w.text else w.shown, x, y);
    case Other(_) => QuotedReads(v.shown, if w.Text? then w.text else w.shown, x, y);
    case List(items) => OpenedReads(items, w.items, x, y);
    case Tuple(items) => OpenedReads(items, w.items, x, y);
    case Dict(entries) => MappingReads(entries, w.entries, x, y);
  }

  lemma RestReads(s: string, x: string, y: string)
    requires s + x == s + y
    ensures x == y
  {
    assert x == (s + x)[|s|..] && y == (s + y)[|s|..];
  }

  lemma Regroup(s: string, t: string, x: string)
    ensures s + t + x == s + (t + x)
  {
  }

  lemma AfterFirst(c: char, s: string, t: string, x: string, y: string)
    requires [c] + s + x == [c] + t + y
    ensures s + x == t + y
  {
    assert ([c] + s + x)[1..] == s + x && ([c] + t + y)[1..] == t + y;
  }

  lemma {:induction false} OpenedReads(items: seq<Value>, others: seq<Value>, x: string, y: string)
    requires ['['] + PrintItems(items) + x == ['['] + PrintItems(others) + y
    ensures PlainerItems(items) == PlainerItems(others) && x == y
    decreases items, 2
  {
    AfterFirst('[', PrintItems(items), PrintItems(others), x, y);
    if items != [] { FirstChar(items[0]); }
    if others != [] { FirstChar(others[0]); }
    assert (PrintItems(items) + x)[0] == PrintItems(items)[0] && (PrintItems(others) + y)[0] == PrintItems(others)[0];
    if items == [] {
      RestReads([']'], x, y);
    } else {
      HeadReads(items, others, x, y);
    }
  }

  /** One value and what the list says after it. */
  lemma {:induction false} HeadReads(items: seq<Value>, others: seq<Value>, x: string, y: string)
    requires items != [] && others != []
    requires Print(items[0]) + PrintMore(items[1..]) + x == Print(others[0]) + PrintMore(others[1..]) + y
    ensures PlainerItems(items) == PlainerItems(others) && x == y
    decreases items, 1
  {
    var a, b := PrintMore(items[1..]) + x, PrintMore(others[1..]) + y;
    Regroup(Print(items[0]), PrintMore(items[1..]), x);
    Regroup(Print(others[0]), PrintMore(others[1..]), y);
    MoreStops(items[1..], x);
    MoreStops(others[1..], y);
    ValueReads(items[0], others[0], a, b);
    MoreReads(items[1..], others[1..], x, y);
  }

  lemma MoreStops(items: seq<Value>, x: string)
    ensures Stops(PrintMore(items) + x) && (PrintMore(items) + x)[0] == if items == [] then ']' else ','
  {
  }

  lemma {:induction false} MoreReads(items: seq<Value>, others: seq<Value>, x: string, y: string)
    requires PrintMore(items) + x == PrintMore(others) + y
    ensures PlainerItems(items) == PlainerItems(others) && x == y
    decreases items, 2
  {
    MoreStops(items, x);
    MoreStops(others, y);
    if items == [] {
      RestReads([']'], x, y);
    } else {
      AfterFirst(',', Print(items[0]) + PrintMore(items[1..]), Print(others[0]) + PrintMore(others[1..]), x, y);
      HeadReads(items, others, x, y);
    }
  }

  lemma {:induction false} EntryReads(e: Entry, d: Entry, x: string, y: string)
    requires PrintEntry(e) + x == PrintEntry(d) + y && Stops(x) && Stops(y)
    ensures PlainerEntry(e) == PlainerEntry(d) && x == y
    decreases e
  {
    var a, b := [':'] + Print(e.value) + x, [':'] + Print(d.value) + y;
    Regroup(Quoted(KeyText(e.key)), [':'] + Print(e.value), x);
    Regroup(Quoted(KeyText(d.key)), [':'] + Print(d.value), y);
    QuotedReads(KeyText(e.key), KeyText(d.key), a, b);
    AfterFirst(':', Print(e.value), Print(d.value), x, y);
    ValueReads(e.value, d.value, x, y);
  }

  lemma EntryQuoted(e: Entry)
    ensures PrintEntry(e) != [] && PrintEntry(e)[0] == '\"'
  {
  }

  lemma {:induction false} MappingReads(entries: seq<Entry>, others: seq<Entry>, x: string, y: string)
    requires ['{'] + PrintEntries(entries) + x == ['{'] + PrintEntries(others) + y
    ensures PlainerEntries(entries) == PlainerEntries(others) && x == y
    decreases entries, 2
  {
    AfterFirst('{', PrintEntries(entries), PrintEntries(others), x, y);
    if entries != [] { EntryQuoted(entries[0]); }
    if others != [] { EntryQuoted(others[0]); }
    assert (PrintEntries(entries) + x)[0] == PrintEntries(entries)[0] && (PrintEntries(others) + y)[0] == PrintEntries(others)[0];
    if entries == [] {
      RestReads(['}'], x, y);
    } else {
      FirstEntryReads(entries, others, x, y);
    }
  }

  lemma {:induction false} FirstEntryReads(entries: seq<Entry>, others: seq<Entry>, x: string, y: string)
    requires entries != [] && others != []
    requires PrintEntry(entries[0]) + PrintRest(entries[1..]) + x == PrintEntry(others[0]) + PrintRest(others[1..]) + y
    ensures PlainerEntries(entries) == PlainerEntries(others) && x == y
    decreases entries, 1
  {
    var a, b := PrintRest(entries[1..]) + x, PrintRest(others[1..]) + y;
    Regroup(PrintEntry(entries[0]), PrintRest(entries[1..]), x);
    Regroup(PrintEntry(others[0]), PrintRest(others[1..]), y);
    RestStops(entries[1..], x);
    RestStops(others[1..], y);
    EntryReads(entries[0], others[0], a, b);
    RestRead(entries[1..], others[1..], x, y);
  }

  lemma RestStops(entries: seq<Entry>, x: string)
    ensures Stops(PrintRest(entries) + x) && (PrintRest(entries) + x)[0] == if entries == [] then '}' else ','
  {
  }

  lemma {:induction false} RestRead(entries: seq<Entry>, others: seq<Entry>, x: string, y: string)
    requires PrintRest(entries) + x == PrintRest(others) + y
    ensures PlainerEntries(entries) == PlainerEntries(others) && x == y
    decreases entries, 2
  {
    RestStops(entries, x);
    RestStops(others, y);
    if entries == [] {
      RestReads(['}'], x, y);
    } else {
      AfterFirst(',', PrintEntry(entries[0]) + PrintRest(entries[1..]), PrintEntry(others[0]) + PrintRest(others[1..]), x, y);
      FirstEntryReads(entries, others, x, y);
    }
  }

  /** Two values print the same exactly when they have the same plain form. */
  lemma PrintAlikeIff(v: Value, w: Value)
    ensures Print(v) == Print(w) <==> Plainer(v) == Plainer(w)
  {
    PlainerPrintsAlike(v);
    PlainerPrintsAlike(w);
    if Print(v) == Print(w) { ValueReads(v, w, [], []); }
  }

  /** Printing tells plain filters apart. */
  lemma PlainTextsDiffer(v: Value, w: Value)
    requires Plain(v) && Plain(w) && Print(v) == Print(w)
    ensures v == w
  {
    PlainIsPlainer(v);
    PlainIsPlainer(w);
    PrintAlikeIff(v, w);
  }

  // -------------------------------------------------------- building mappings

  lemma {:induction false} BeforeTotal(s: string, t: string)
    ensures !(Before(s, t) && Before(t, s)) && (Before(s, t) || s == t || Before(t, s)) && !Before(s, s)
    decreases |s|
  {
    if s != [] && t != [] {
      BeforeTotal(s[1..], t[1..]);
      if s[0] == t[0] && s[1..] == t[1..] { assert s == [s[0]] + s[1..] && t == [t[0]] + t[1..]; }
    }
    if s != [] { BeforeTotal(s[1..], s[1..]); }
  }

  lemma {:induction false} BeforeTrans(s: string, t: string, u: string)
    requires Before(s, t) && Before(t, u)
    ensures Before(s, u)
    decreases |s|
  {
    if s != [] && s[0] == t[0] && t[0] == u[0] { BeforeTrans(s[1..], t[1..], u[1..]); }
  }

  /** `m[key] = value`. */
  function Put(entries: seq<Entry>, k: Key, x: Value): seq<Entry> {
    if entries == [] then [Entry(k, x)]
    else if entries[0].key == k then [Entry(k, x)] + entries[1..]
    else if Before(KeyText(k), KeyText(entries[0].key)) then [Entry(k, x)] + entries
    else [entries[0]] + Put(entries[1..], k, x)
  }

  function Get(entries: seq<Entry>, k: Key): Option<Value> {
    if entries == [] then None
    else if entries[0].key == k then Some(entries[0].value)
    else Get(entries[1..], k)
  }

  lemma {:induction false} PutMembers(entries: seq<Entry>, k: Key, x: Value)
    ensures forall e :: e in Put(entries, k, x) ==> e == Entry(k, x) || e in entries
    ensures Entry(k, x) in Put(entries, k, x)
    decreases |entries|
  {
    if entries != [] && entries[0].key != k && !Before(KeyText(k), KeyText(entries[0].key)) {
      PutMembers(entries[1..], k, x);
    }
  }

  lemma {:induction false} PutAscending(entries: seq<Entry>, name: string, x: Value)
    requires Ascending(entries) && forall e :: e in entries ==> e.key.Name?
    ensures Ascending(Put(entries, Name(name), x))
    decreases |entries|
  {
    if entries != [] {
      var head, rest := entries[0], entries[1..];
      assert forall e :: e in rest ==> e in entries;
      BeforeTotal(name, KeyText(head.key));
      if head.key != Name(name) && !Before(name, KeyText(head.key)) {
        PutAscending(rest, name, x);
        PutMembers(rest, Name(name), x);
        HeadBefore(head, Put(rest, Name(name), x));
      } else if head.key != Name(name) {
        forall e | e in entries
          ensures Before(name, KeyText(e.key))
        {
          if e != head { BeforeTrans(name, KeyText(head.key), KeyText(e.key)); }
        }
        HeadBefore(Entry(Name(name), x), entries);
      } else {
        HeadBefore(Entry(Name(name), x), rest);
      }
    }
  }

  lemma HeadBefore(head: Entry, rest: seq<Entry>)
    requires Ascending(rest) && forall e :: e in rest ==> Before(KeyText(head.key), KeyText(e.key))
    ensures Ascending([head] + rest)
  {
    var all := [head] + rest;
    assert forall i :: 0 < i < |all| ==> all[i] == rest[i - 1];
  }

  /** Setting a string key keeps a mapping plain. */
  lemma PutPlain(entries: seq<Entry>, name: string, x: Value)
    requires Plain(Dict(entries)) && Plain(x)
    ensures Plain(Dict(Put(entries, Name(name), x)))
  {
    PutAscending(entries, name, x);
    PutMembers(entries, Name(name), x);
  }

  predicate Hashable(v: Value)
    decreases v
  {
    match v
    case List(_) => false
    case Dict(_) => false
    case Tuple(items) => forall x :: x in items ==> Hashable(x)
    case _ => true
  }

  function AsKey(v: Value): Option<Key> {
    match v
    case Text(s) => Some(Name(s))
    case Number(l) => Some(NumberKey(l))
    case Flag(b) => Some(FlagKey(b))
    case Null => Some(NullKey)
    case _ => if Hashable(v) then Some(ObjectKey(v)) else None
  }

  function KeyValue(k: Key): Value {
    match k
    case Name(s) => Text(s)
    case NumberKey(l) => Number(l)
    case FlagKey(b) => Flag(b)
    case NullKey => Null
    case ObjectKey(v) => v
  }

  /** An element of a sequence read as a key and a value. */
  function AsPair(v: Value): Result<(Key, Value), Error> {
    match v
    case Text(s) => if |s| == 2 then Ok((Name(s[..1]), Text(s[1..]))) else Err(ValueError)
    case List(items) => PairOf(items)
    case Tuple(items) => PairOf(items)
    case Dict(entries) => if |entries| == 2 then Ok((entries[0].key, KeyValue(entries[1].key))) else Err(ValueError)
    case _ => Err(TypeError)
  }

  function PairOf(items: seq<Value>): Result<(Key, Value), Error> {
    if |items| != 2 then Err(ValueError)
    else if AsKey(items[0]).None? then Err(TypeError)
    else Ok((AsKey(items[0]).value, items[1]))
  }

  function FromPairs(items: seq<Value>, entries: seq<Entry>): Result<seq<Entry>, Error>
    decreases items
  {
    if items == [] then Ok(entries)
    else
      var pair := AsPair(items[0]);
      if pair.Err? then Err(pair.error) else FromPairs(items[1..], Put(entries, pair.value.0, pair.value.1))
  }

  /** `dict(value)`: a copy of a mapping, or the mapping a sequence of pairs
      describes. Nothing else can be converted. */
  function AsMapping(v: Value): Result<seq<Entry>, Error> {
    match v
    case Dict(entries) => Ok(entries)
    case List(items) => FromPairs(items, [])
    case Tuple(items) => FromPairs(items, [])
    case Text(s) => if s == [] then Ok([]) else Err(ValueError)
    case _ => Err(TypeError)
  }

  // ------------------------------------------------------------------- names

  /** Adds a string to a sorted list unless it is there. */
  function PutName(names: seq<string>, s: string): seq<string> {
    if names == [] then [s]
    else if names[0] == s then names
    else if Before(s, names[0]) then [s] + names
    else [names[0]] + PutName(names[1..], s)
  }

  /** `sorted(set(names))`. */
  function Sorted(names: seq<string>): seq<string> {
    if names == [] then [] else PutName(Sorted(names[..|names| - 1]), names[|names| - 1])
  }

  function Texts(names: seq<string>): Value {
    List(seq(|names|, i requires 0 <= i < |names| => Text(names[i])))
  }

  predicate InOrder(names: seq<string>) {
    forall i, j :: 0 <= i < j < |names| ==> Before(names[i], names[j])
  }

  lemma {:induction false} PutNameSorted(names: seq<string>, s: string)
    requires InOrder(names)
    ensures InOrder(PutName(names, s)) && forall n :: n in PutName(names, s) <==> n in names || n == s
    decreases |names|
  {
    if names != [] {
      var head, rest := names[0], names[1..];
      BeforeTotal(s, head);
      assert names == [head] + rest;
      if head != s && !Before(s, head) {
        PutNameSorted(rest, s);
        HeadInOrder(head, PutName(rest, s));
      } else if head != s {
        forall n | n in names
          ensures Before(s, n)
        {
          if n != head { BeforeTrans(s, head, n); }
        }
        HeadInOrder(s, names);
      }
    }
  }

  lemma HeadInOrder(head: string, rest: seq<string>)
    requires InOrder(rest) && forall n :: n in rest ==> Before(head, n)
    ensures InOrder([head] + rest)
  {
    var all := [head] + rest;
    assert forall i :: 0 < i < |all| ==> all[i] == rest[i - 1];
  }

  /** Sorting lists each string once, in order. */
  lemma {:induction false} SortedLists(names: seq<string>)
    ensures InOrder(Sorted(names)) && forall n :: n in Sorted(names) <==> n in names
    decreases |names|
  {
    if names != [] {
      var front, last := names[..|names| - 1], names[|names| - 1];
      SortedLists(front);
      PutNameSorted(Sorted(front), last);
      assert names == front + [last];
    }
  }
}
