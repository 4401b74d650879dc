/** Posting lists packed as deltas in unsigned LEB128 (section 7.6 of DWARF
    Version 5), in fixed-size blocks or per cluster. */
module Postings {
  import opened Prelude
  import opened Bits

  lemma Pow2Seven(n: nat)
    ensures Pow2(n + 7) == 128 * Pow2(n)
  {
    assert Pow2(n + 7) == 2 * Pow2(n + 6) == 4 * Pow2(n + 5) == 8 * Pow2(n + 4) == 16 * Pow2(n + 3) == 32 * Pow2(n + 2) == 64 * Pow2(n + 1);
  }

  // ------------------------------------------------------------- one number

  /** Seven bits a byte, low bits first; every byte but the last has the high bit set. */
  function EncodeOne(d: nat): (bytes: seq<Byte>)
    ensures |bytes| > 0
  {
    if d < 128 then [d] else [d % 128 + 128] + EncodeOne(d / 128)
  }

  /** The number a LEB128 byte string stands for. */
  function ValueOf(bytes: seq<Byte>): nat {
    if bytes == [] then 0 else bytes[0] % 128 + 128 * ValueOf(bytes[1..])
  }

  /** The encoding is the canonical LEB128 form: continuation bits on all bytes
      but the last, the right value, and no padding byte. */
  lemma {:induction false} EncodeOneCanonical(d: nat)
    ensures var bytes := EncodeOne(d);
            && ValueOf(bytes) == d
            && (forall i :: 0 <= i < |bytes| - 1 ==> bytes[i] >= 128)
            && bytes[|bytes| - 1] < 128
            && (|bytes| > 1 ==> bytes[|bytes| - 1] > 0)
    decreases d
  {
    var bytes := EncodeOne(d);
    if d < 128 {
      assert bytes[1..] == [];
    } else {
      var rest := EncodeOne(d / 128);
      EncodeOneCanonical(d / 128);
      assert bytes == [d % 128 + 128] + rest && bytes[1..] == rest;
      assert (d % 128 + 128) % 128 == d % 128 && d == d % 128 + 128 * (d / 128);
      assert forall i :: 1 <= i < |bytes| ==> bytes[i] == rest[i - 1];
    }
  }

  // ------------------------------------------------------------------ lists

  ghost predicate Ascending(vals: seq<int>) {
    forall i, j :: 0 <= i < j < |vals| ==> vals[i] <= vals[j]
  }

  ghost predicate Increasing(vals: seq<int>) {
    forall i, j :: 0 <= i < j < |vals| ==> vals[i] < vals[j]
  }

  /** The deltas of a list, each in LEB128; None if a delta is negative, which
      no byte can hold. */
  function Encode(vals: seq<int>, prev: int): Option<seq<Byte>> {
    if vals == [] then Some([])
    else if vals[0] < prev then None
    else
      var rest := Encode(vals[1..], vals[0]);
      if rest.None? then None else Some(EncodeOne(vals[0] - prev) + rest.value)
  }

  /** Adds a finished delta to the list: the first one is the value itself. */
  function Push(vals: seq<int>, cur: nat): seq<int> {
    vals + [if vals == [] then cur else vals[|vals| - 1] + cur]
  }

  /** Decoding as a fold over the bytes, with the partial number and its shift. */
  function DecodeFrom(buf: seq<Byte>, vals: seq<int>, cur: nat, shift: nat): seq<int>
    decreases |buf|
  {
    if buf == [] then vals
    else
      var grown := cur + (buf[0] % 128) * Pow2(shift);
      if buf[0] < 128 then DecodeFrom(buf[1..], Push(vals, grown), 0, 0)
      else DecodeFrom(buf[1..], vals, grown, shift + 7)
  }

  function Decode(buf: seq<Byte>): seq<int> {
    DecodeFrom(buf, [], 0, 0)
  }

  /** Decoding one encoded number in front of anything else finishes that number. */
  lemma {:induction false} DecodeOne(d: nat, rest: seq<Byte>, vals: seq<int>, cur: nat, shift: nat)
    ensures DecodeFrom(EncodeOne(d) + rest, vals, cur, shift) == DecodeFrom(rest, Push(vals, cur + d * Pow2(shift)), 0, 0)
    decreases d
  {
    var bytes := EncodeOne(d);
    if d < 128 {
      assert (bytes + rest)[1..] == rest;
    } else {
      assert (bytes + rest)[1..] == EncodeOne(d / 128) + rest;
      assert bytes[0] % 128 == d % 128;
      DecodeOne(d / 128, rest, vals, cur + (d % 128) * Pow2(shift), shift + 7);
      Pow2Seven(shift);
      SplitShift(d, Pow2(shift));
    }
  }

  lemma SplitShift(d: nat, p: nat)
    ensures (d % 128) * p + (d / 128) * (128 * p) == d * p
  {
    assert d == d % 128 + (d / 128) * 128;
    assert d * p == (d % 128) * p + ((d / 128) * 128) * p;
  }

  ghost predicate Follows(vals: seq<int>, prev: int) {
    if vals == [] then prev == 0 else prev == vals[|vals| - 1]
  }

  lemma {:induction false} DecodeEncoded(done: seq<int>, vals: seq<int>, prev: nat)
    requires Follows(done, prev) && Ascending(vals) && (vals != [] ==> prev <= vals[0])
    ensures Encode(vals, prev).Some?
    ensures DecodeFrom(Encode(vals, prev).value, done, 0, 0) == done + vals
    decreases |vals|
  {
    if vals != [] {
      assert forall i :: 0 <= i < |vals[1..]| ==> vals[1..][i] == vals[i + 1];
      DecodeEncoded(done + [vals[0]], vals[1..], vals[0]);
      DecodeOne(vals[0] - prev, Encode(vals[1..], vals[0]).value, done, 0, 0);
      assert Pow2(0) == 1;
      assert Push(done, vals[0] - prev) == done + [vals[0]];
      assert done + [vals[0]] + vals[1..] == done + vals;
    } else {
      assert done + vals == done;
    }
  }

  /** Decoding what was encoded gives the list back, for ascending natural
      numbers of any size and number; repeated values survive. */
  lemma RoundTrip(vals: seq<int>)
    requires Ascending(vals) && forall i :: 0 <= i < |vals| ==> 0 <= vals[i]
    ensures Encode(vals, 0).Some? && Decode(Encode(vals, 0).value) == vals
  {
    DecodeEncoded([], vals, 0);
  }

  /** Exactly the ascending lists of natural numbers can be encoded. */
  lemma {:induction false} EncodableIff(vals: seq<int>, prev: int)
    ensures Encode(vals, prev).Some? <==> Ascending(vals) && forall i :: 0 <= i < |vals| ==> prev <= vals[i]
    decreases |vals|
  {
    if vals != [] {
      EncodableIff(vals[1..], vals[0]);
      if Encode(vals, prev).Some? {
        forall i, j | 0 <= i < j < |vals|
          ensures vals[i] <= vals[j]
        {
          assert vals[j] == vals[1..][j - 1];
          if i > 0 { assert vals[i] == vals[1..][i - 1]; }
        }
        forall i | 0 <= i < |vals|
          ensures prev <= vals[i]
        {
          if i > 0 { assert vals[i] == vals[1..][i - 1]; }
        }
      }
      if Ascending(vals) && forall i :: 0 <= i < |vals| ==> prev <= vals[i] {
        assert forall i :: 0 <= i < |vals[1..]| ==> vals[1..][i] == vals[i + 1];
      }
    }
  }

  // ------------------------------------------------------------- the loops

  /** The byte loop over the deltas; stops at the first value that no byte can hold. */
  method EncodeLoop(vals: seq<int>) returns (out: Option<seq<Byte>>)
    ensures out == Encode(vals, 0)
  {
    var bytes: seq<Byte> := [];
    var prev := 0;
    assert vals[0..] == vals;
    PrefixedEmpty(Encode(vals, 0));
    for i := 0 to |vals|
      invariant Encode(vals, 0) == Prefixed(bytes, Encode(vals[i..], prev))
    {
      var d := vals[i] - prev;
      assert vals[i..][0] == vals[i] && vals[i..][1..] == vals[i + 1..];
      if d < 0 { return None; }
      ghost var before, whole := bytes, d;
      while d >= 128
        invariant 0 <= d && before + EncodeOne(whole) == bytes + EncodeOne(d)
        decreases d
      {
        ContinuationByte(d);
        RightSeven(d);
        bytes := bytes + [Or(And(d, 127), 128)];
        d := ShiftRight(d, 7);
      }
      bytes := bytes + [d];
      assert before + EncodeOne(whole) == bytes;
      PrefixedTwice(before, EncodeOne(whole), Encode(vals[i + 1..], vals[i]));
      prev := vals[i];
    }
    assert vals[|vals|..] == [];
    assert bytes + [] == bytes;
    return Some(bytes);
  }

  function Prefixed(a: seq<Byte>, b: Option<seq<Byte>>): Option<seq<Byte>> {
    if b.None? then None else Some(a + b.value)
  }

  lemma PrefixedEmpty(b: Option<seq<Byte>>)
    ensures Prefixed([], b) == b
  {
    if b.Some? { assert [] + b.value == b.value; }
  }

  lemma PrefixedTwice(a: seq<Byte>, b: seq<Byte>, c: Option<seq<Byte>>)
    ensures Prefixed(a, Prefixed(b, c)) == Prefixed(a + b, c)
  {
    if c.Some? { assert a + (b + c.value) == (a + b) + c.value; }
  }

  /** The byte loop over a buffer, on bits. The partial number stays below its
      shift, so or-ing the next seven bits in is the same as adding them. */
  method DecodeLoop(buf: seq<Byte>) returns (vals: seq<int>)
    ensures vals == Decode(buf)
  {
    vals := [];
    var cur: nat, shift: nat := 0, 0;
    for i := 0 to |buf|
      invariant DecodeFrom(buf[i..], vals, cur, shift) == Decode(buf)
      invariant cur < Pow2(shift)
    {
      var b := buf[i];
      assert buf[i..][0] == b && buf[i..][1..] == buf[i + 1..];
      ghost var low := cur;
      SevenMoreBits(cur, b, shift);
      cur := Or(cur, ShiftLeft(And(b, 127), shift));
      if b < 128 {
        vals, cur, shift := Push(vals, cur), 0, 0;
      } else {
        Pow2Seven(shift);
        StaysBelow(low, b % 128, Pow2(shift));
        shift := shift + 7;
      }
    }
  }

  lemma StaysBelow(cur: nat, x: nat, p: nat)
    requires cur < p && x < 128
    ensures cur + x * p < 128 * p
  {
    assert x * p <= 127 * p;
  }

  // ------------------------------------------------------------ sorted sets

  /** `sorted(set(ids))`: each id once, in increasing order. */
  method SortedDistinct(ids: seq<int>) returns (sorted: seq<int>)
    ensures Increasing(sorted) && Elems(sorted) == Elems(ids)
  {
    sorted := [];
    for i := 0 to |ids|
      invariant Increasing(sorted) && Elems(sorted) == Elems(ids[..i])
    {
      ElemsOfOneMore(ids, i);
      var j := 0;
      while j < |sorted| && sorted[j] < ids[i]
        invariant j <= |sorted| && forall k :: 0 <= k < j ==> sorted[k] < ids[i]
        decreases |sorted| - j
      {
        j := j + 1;
      }
      if j == |sorted| || sorted[j] != ids[i] {
        var longer := sorted[..j] + [ids[i]] + sorted[j..];
        InsertedElems(sorted, j, ids[i]);
        sorted := longer;
      } else {
        assert ids[i] in Elems(sorted);
        assert Elems(sorted) + {ids[i]} == Elems(sorted);
      }
    }
    assert ids[..|ids|] == ids;
  }

  lemma InsertedElems(s: seq<int>, j: nat, x: int)
    requires j <= |s|
    ensures Elems(s[..j] + [x] + s[j..]) == Elems(s) + {x}
  {
    assert s == s[..j] + s[j..];
  }

  lemma LastIsLargest(a: seq<int>, x: int)
    requires Increasing(a) && x in Elems(a)
    ensures x <= a[|a| - 1]
  {
    var i :| 0 <= i < |a| && a[i] == x;
  }

  lemma FrontElems(a: seq<int>)
    requires Increasing(a) && a != []
    ensures Increasing(a[..|a| - 1]) && Elems(a[..|a| - 1]) == Elems(a) - {a[|a| - 1]} && a[|a| - 1] in Elems(a)
  {
    assert a == a[..|a| - 1] + [a[|a| - 1]];
  }

  /** A set has one increasing listing only. */
  lemma {:induction false} IncreasingUnique(a: seq<int>, b: seq<int>)
    requires Increasing(a) && Increasing(b) && Elems(a) == Elems(b)
    ensures a == b
    decreases |a|
  {
    IncreasingCount(a);
    IncreasingCount(b);
    if a != [] {
      FrontElems(a);
      FrontElems(b);
      LastIsLargest(a, b[|b| - 1]);
      LastIsLargest(b, a[|a| - 1]);
      IncreasingUnique(a[..|a| - 1], b[..|b| - 1]);
      assert a == a[..|a| - 1] + [a[|a| - 1]];
      assert b == b[..|b| - 1] + [b[|b| - 1]];
    }
  }

  // ----------------------------------------------------------------- blocks

  datatype PostingBlock = PostingBlock(first: int, last: int, values: seq<Byte>, count: nat)

  /** The ids of a block list, one block after the other. */
  function Flat(blocks: seq<PostingBlock>): seq<int> {
    if blocks == [] then [] else Flat(blocks[..|blocks| - 1]) + Decode(blocks[|blocks| - 1].values)
  }

  function IdsOf(blocks: seq<PostingBlock>): set<int> {
    Elems(Flat(blocks))
  }

  /** The header of a block tells what it decodes to. */
  ghost predicate Packs(b: PostingBlock, chunk: seq<int>) {
    chunk != [] && b.first == chunk[0] && b.last == chunk[|chunk| - 1] && b.count == |chunk| && Decode(b.values) == chunk
  }

  /** Every block but the last is full. */
  ghost predicate Chunked(blocks: seq<PostingBlock>, size: nat) {
    forall j :: 0 <= j < |blocks| ==>
      Packs(blocks[j], Decode(blocks[j].values)) && blocks[j].count <= size && (j < |blocks| - 1 ==> blocks[j].count == size)
  }

  lemma FlatOneMore(blocks: seq<PostingBlock>, b: PostingBlock)
    ensures Flat(blocks + [b]) == Flat(blocks) + Decode(b.values)
  {
    assert (blocks + [b])[..|blocks|] == blocks;
  }

  lemma IncreasingSlice(vals: seq<int>, i: nat, j: nat)
    requires Increasing(vals) && i <= j <= |vals|
    ensures Increasing(vals[i..j]) && Ascending(vals[i..j])
  {
  }

  function UnionOf(blocks: map<string, seq<PostingBlock>>, terms: seq<string>): set<int> {
    if terms == [] then {}
    else
      var last := terms[|terms| - 1];
      UnionOf(blocks, terms[..|terms| - 1]) + if last in blocks then IdsOf(blocks[last]) else {}
  }

  /** The document occurs in the latest id set of one of the terms. */
  ghost predicate InLatest(latest: map<string, set<int>>, terms: seq<string>, d: int) {
    exists t :: t in terms && t in latest && d in latest[t]
  }

  lemma {:induction false} UnionIsLatest(blocks: map<string, seq<PostingBlock>>, latest: map<string, set<int>>, terms: seq<string>)
    requires blocks.Keys == latest.Keys && forall t :: t in latest ==> IdsOf(blocks[t]) == latest[t]
    ensures forall d :: d in UnionOf(blocks, terms) <==> InLatest(latest, terms, d)
    decreases |terms|
  {
    if terms != [] {
      var front, last := terms[..|terms| - 1], terms[|terms| - 1];
      UnionIsLatest(blocks, latest, front);
      assert terms == front + [last];
    }
  }

  lemma SameSigns(ids: seq<int>, vals: seq<int>)
    requires Elems(ids) == Elems(vals)
    ensures (forall k :: 0 <= k < |vals| ==> 0 <= vals[k]) <==> (forall id :: id in ids ==> 0 <= id)
  {
    assert forall id :: id in ids <==> id in Elems(vals);
    assert forall k :: 0 <= k < |vals| ==> vals[k] in Elems(vals);
  }

  class BlockPostings {
    const blockSize: nat
    var blocks: map<string, seq<PostingBlock>>
    /** What `Add` was last given for each term. */
    ghost var latest: map<string, set<int>>

    /** The blocks of a term decode, one after the other, to its latest ids in
        increasing order; all but the last are full. */
    ghost predicate Valid()
      reads this
    {
      && blockSize >= 32 && blocks.Keys == latest.Keys
      && (forall t :: t in latest ==> IdsOf(blocks[t]) == latest[t])
      && forall t :: t in blocks ==> Increasing(Flat(blocks[t])) && Chunked(blocks[t], blockSize)
    }

    constructor (blockSize: nat)
      requires blockSize >= 32
      ensures Valid() && this.blockSize == blockSize && latest == map[]
    {
      this.blockSize, blocks, latest := blockSize, map[], map[];
    }

    /** Replaces the postings of a term; a negative id raises and changes nothing. */
    method Add(term: string, ids: seq<int>) returns (ok: bool)
      requires Valid()
      modifies this
      ensures Valid()
      ensures ok <==> forall id :: id in ids ==> 0 <= id
      ensures !ok ==> blocks == old(blocks) && latest == old(latest)
      ensures ok ==> latest == old(latest)[term := Elems(ids)]
    {
      var vals := SortedDistinct(ids);
      var packed := PackAll(vals);
      SameSigns(ids, vals);
      if packed.None? { return false; }
      blocks := blocks[term := packed.value];
      latest := latest[term := Elems(ids)];
      return true;
    }

    /** Cuts a sorted list into blocks; gives up on a negative id. */
    method PackAll(vals: seq<int>) returns (r: Option<seq<PostingBlock>>)
      requires Increasing(vals) && blockSize >= 32
      ensures r.Some? <==> forall k :: 0 <= k < |vals| ==> 0 <= vals[k]
      ensures r.Some? ==> Flat(r.value) == vals && Chunked(r.value, blockSize)
    {
      var packed: seq<PostingBlock> := [];
      var i := 0;
      assert vals[..0] == [];
      while i < |vals|
        invariant 0 <= i <= |vals| && Flat(packed) == vals[..i] && Chunked(packed, blockSize)
        invariant forall k :: 0 <= k < i ==> 0 <= vals[k]
        invariant i < |vals| ==> forall j :: 0 <= j < |packed| ==> packed[j].count == blockSize
        decreases |vals| - i
      {
        var j := if i + blockSize <= |vals| then i + blockSize else |vals|;
        var b := Pack(vals, i, j);
        if b.None? { return None; }
        FlatOneMore(packed, b.value);
        assert vals[..j] == vals[..i] + vals[i..j];
        packed := packed + [b.value];
        i := j;
      }
      assert vals[..|vals|] == vals;
      return Some(packed);
    }

    method Pack(vals: seq<int>, i: nat, j: nat) returns (b: Option<PostingBlock>)
      requires Increasing(vals) && i < j <= |vals|
      ensures b.Some? <==> 0 <= vals[i]
      ensures b.Some? ==> Packs(b.value, vals[i..j])
      ensures b.Some? ==> forall k :: i <= k < j ==> 0 <= vals[k]
    {
      var chunk := vals[i..j];
      IncreasingSlice(vals, i, j);
      EncodableIff(chunk, 0);
      assert chunk[0] == vals[i];
      var bytes := EncodeLoop(chunk);
      if bytes.None? { return None; }
      RoundTrip(chunk);
      return Some(PostingBlock(chunk[0], chunk[|chunk| - 1], bytes.value, |chunk|));
    }

    /** The sorted, duplicate-free union of the latest ids of the given terms. */
    method Union(terms: seq<string>) returns (ids: seq<int>)
      requires Valid()
      ensures Increasing(ids) && forall d :: d in Elems(ids) <==> InLatest(latest, terms, d)
    {
      UnionIsLatest(blocks, latest, terms);
      var found: seq<int> := [];
      for i := 0 to |terms|
        invariant Elems(found) == UnionOf(blocks, terms[..i])
      {
        assert terms[..i + 1][..i] == terms[..i];
        if terms[i] in blocks {
          var list := blocks[terms[i]];
          ghost var before := Elems(found);
          for j := 0 to |list|
            invariant Elems(found) == before + IdsOf(list[..j])
          {
            assert list[..j + 1] == list[..j] + [list[j]];
            FlatOneMore(list[..j], list[j]);
            var vals := DecodeLoop(list[j].values);
            assert Elems(found + vals) == Elems(found) + Elems(vals);
            found := found + vals;
          }
          assert list[..|list|] == list;
        }
      }
      assert terms[..|terms|] == terms;
      ids := SortedDistinct(found);
    }
  }

  // --------------------------------------------------------------- clusters

  /** The documents filed under a cluster, in filing order. */
  function Filed(clusters: seq<int>, docs: seq<int>, c: int): seq<int> {
    if clusters == [] || docs == [] then []
    else (if clusters[0] == c then [docs[0]] else []) + Filed(clusters[1..], docs[1..], c)
  }

  /** All documents that are paired with some cluster. */
  function Paired(clusters: seq<int>, docs: seq<int>): seq<int> {
    docs[..if |clusters| <= |docs| then |clusters| else |docs|]
  }

  function FileOf(files: map<int, seq<int>>, c: int): seq<int> {
    if c in files then files[c] else []
  }

  lemma FiledStep(clusters: seq<int>, docs: seq<int>, i: nat, files: map<int, seq<int>>)
    requires i < |clusters| && i < |docs|
    ensures var after := files[clusters[i] := FileOf(files, clusters[i]) + [docs[i]]];
            forall c :: FileOf(after, c) + Filed(clusters[i + 1..], docs[i + 1..], c) == FileOf(files, c) + Filed(clusters[i..], docs[i..], c)
  {
    var after := files[clusters[i] := FileOf(files, clusters[i]) + [docs[i]]];
    forall c
      ensures FileOf(after, c) + Filed(clusters[i + 1..], docs[i + 1..], c) == FileOf(files, c) + Filed(clusters[i..], docs[i..], c)
    {
      assert clusters[i..][0] == clusters[i] && clusters[i..][1..] == clusters[i + 1..];
      assert docs[i..][0] == docs[i] && docs[i..][1..] == docs[i + 1..];
    }
  }

  /** The clusters of a term in filing order, each with its packed documents. */
  datatype Part = Part(order: seq<int>, blocks: map<int, PostingBlock>)

  class ClusterPostings {
    var parts: map<string, Part>

    ghost predicate Valid()
      reads this
    {
      forall t :: t in parts ==> Elems(parts[t].order) == parts[t].blocks.Keys
    }

    constructor ()
      ensures Valid() && parts == map[]
    {
      parts := map[];
    }

    /** Files each document under its cluster and packs every cluster's
        documents; a negative document id raises and changes nothing. */
    method Add(term: string, clusters: seq<int>, docs: seq<int>) returns (ok: bool)
      requires Valid()
      modifies this
      ensures Valid()
      ensures !ok ==> parts == old(parts)
      ensures ok <==> forall d :: d in Paired(clusters, docs) ==> 0 <= d
      ensures ok ==> parts.Keys == old(parts).Keys + {term}
      ensures ok ==> forall t :: t in old(parts) && t != term ==> parts[t] == old(parts)[t]
      ensures ok ==> forall c {:trigger Filed(clusters, docs, c)} :: c in parts[term].blocks <==> Filed(clusters, docs, c) != []
      ensures ok ==> forall c :: c in parts[term].blocks ==> PackedFrom(parts[term].blocks[c], Filed(clusters, docs, c))
    {
      var order, files := FileAll(clusters, docs);
      var packed: map<int, PostingBlock> := map[];
      for i := 0 to |order|
        invariant parts == old(parts) && packed.Keys == Elems(order[..i])
        invariant forall c :: c in packed ==> c in files && PackedFrom(packed[c], files[c])
      {
        ElemsOfOneMore(order, i);
        assert order[i] in Elems(order);
        var filed := files[order[i]];
        assert filed == Filed(clusters, docs, order[i]);
        var b := PackCluster(filed);
        if b.None? {
          NegativeFiled(clusters, docs, order[i]);
          return false;
        }
        packed := packed[order[i] := b.value];
      }
      assert order[..|order|] == order;
      forall d | d in Paired(clusters, docs)
        ensures 0 <= d
      {
        var i :| 0 <= i < |Paired(clusters, docs)| && Paired(clusters, docs)[i] == d;
        FiledMember(clusters, docs, i);
        assert clusters[i] in files;
        assert PackedFrom(packed[clusters[i]], files[clusters[i]]);
      }
      parts := parts[term := Part(order, packed)];
      return true;
    }

    method FileAll(clusters: seq<int>, docs: seq<int>) returns (order: seq<int>, files: map<int, seq<int>>)
      ensures forall c {:trigger Filed(clusters, docs, c)} :: Filed(clusters, docs, c) == FileOf(files, c)
      ensures Elems(order) == files.Keys && forall c :: c in files ==> files[c] != []
    {
      order, files := [], map[];
      var i := 0;
      assert clusters[0..] == clusters && docs[0..] == docs;
      while i < |clusters| && i < |docs|
        invariant i <= |clusters| && i <= |docs|
        invariant forall c {:trigger Filed(clusters, docs, c)} :: Filed(clusters, docs, c) == FileOf(files, c) + Filed(clusters[i..], docs[i..], c)
        invariant Elems(order) == files.Keys && forall c :: c in files ==> files[c] != []
        decreases |clusters| - i
      {
        FiledStep(clusters, docs, i, files);
        if clusters[i] !in files { order := order + [clusters[i]]; }
        files := files[clusters[i] := FileOf(files, clusters[i]) + [docs[i]]];
        i := i + 1;
      }
    }

    method PackCluster(docs: seq<int>) returns (b: Option<PostingBlock>)
      requires docs != []
      ensures b.Some? <==> forall d :: d in docs ==> 0 <= d
      ensures b.Some? ==> PackedFrom(b.value, docs)
    {
      var vals := SortedDistinct(docs);
      EncodableIff(vals, 0);
      var bytes := EncodeLoop(vals);
      if bytes.None? {
        var i :| 0 <= i < |vals| && vals[i] < 0;
        assert vals[i] in Elems(vals);
        return None;
      }
      RoundTrip(vals);
      IncreasingCount(vals);
      forall d | d in docs
        ensures 0 <= d
      {
        assert d in Elems(vals);
      }
      return Some(PostingBlock(docs[0], docs[|docs| - 1], bytes.value, |vals|));
    }

    /** The sorted, duplicate-free union over all clusters of the given terms. */
    method Union(terms: seq<string>) returns (ids: seq<int>)
      requires Valid()
      ensures Increasing(ids)
      ensures forall d :: d in ids <==> exists t :: t in terms && Holds(parts, t, d)
    {
      var found: seq<int> := [];
      for i := 0 to |terms|
        invariant forall d :: d in found <==> exists t :: t in terms[..i] && Holds(parts, t, d)
      {
        ghost var before := found;
        if terms[i] in parts {
          var part := parts[terms[i]];
          for j := 0 to |part.order|
            invariant forall d :: d in found <==> d in before || InSome(part, j, d)
          {
            assert part.order[j] in Elems(part.order);
            var vals := DecodeLoop(part.blocks[part.order[j]].values);
            forall d
              ensures InSome(part, j + 1, d) <==> InSome(part, j, d) || d in vals
            {
              assert d in vals ==> part.order[j] in part.blocks && d in Decode(part.blocks[part.order[j]].values);
            }
            found := found + vals;
          }
          ListedKeys(parts, terms[i]);
        }
        assert forall d :: d in found <==> d in before || Holds(parts, terms[i], d);
        assert terms[..i + 1] == terms[..i] + [terms[i]];
      }
      assert terms[..|terms|] == terms;
      ids := SortedDistinct(found);
      forall d
        ensures d in ids <==> d in found
      {
        assert d in ids <==> d in Elems(ids);
      }
    }
  }

  /** One of the first `n` clusters of a term decodes to the document. */
  ghost predicate InSome(part: Part, n: nat, d: int)
    requires n <= |part.order|
  {
    exists k :: 0 <= k < n && part.order[k] in part.blocks && d in Decode(part.blocks[part.order[k]].values)
  }

  /** Some cluster of the term decodes to the document. */
  ghost predicate Holds(parts: map<string, Part>, term: string, d: int) {
    term in parts && exists c :: c in parts[term].blocks && d in Decode(parts[term].blocks[c].values)
  }

  /** The block of a cluster: the ends of its filing order, and its documents sorted. */
  ghost predicate PackedFrom(b: PostingBlock, docs: seq<int>) {
    && docs != [] && b.first == docs[0] && b.last == docs[|docs| - 1] && Increasing(Decode(b.values))
    && Elems(Decode(b.values)) == Elems(docs) && b.count == |Elems(docs)|
    && forall d :: d in docs ==> 0 <= d
  }

  lemma ListedKeys(parts: map<string, Part>, term: string)
    requires term in parts && Elems(parts[term].order) == parts[term].blocks.Keys
    ensures forall d :: Holds(parts, term, d) <==> InSome(parts[term], |parts[term].order|, d)
  {
    var part := parts[term];
    forall d
      ensures Holds(parts, term, d) <==> InSome(part, |part.order|, d)
    {
      if Holds(parts, term, d) {
        var c :| c in part.blocks && d in Decode(part.blocks[c].values);
        assert c in Elems(part.order);
        var k :| 0 <= k < |part.order| && part.order[k] == c;
        assert InSome(part, |part.order|, d);
      }
      if InSome(part, |part.order|, d) {
        var k :| 0 <= k < |part.order| && part.order[k] in part.blocks && d in Decode(part.blocks[part.order[k]].values);
        var c := part.order[k];
        assert c in parts[term].blocks && d in Decode(parts[term].blocks[c].values);
      }
    }
  }

  lemma IncreasingCount(vals: seq<int>)
    requires Increasing(vals)
    ensures |vals| == |Elems(vals)|
  {
    assert NoDuplicates(vals);
    DistinctCount(vals);
  }

  lemma {:induction false} FiledMember(clusters: seq<int>, docs: seq<int>, i: nat)
    requires i < |clusters| && i < |docs|
    ensures docs[i] in Filed(clusters, docs, clusters[i])
    decreases i
  {
    if i > 0 { FiledMember(clusters[1..], docs[1..], i - 1); }
  }

  lemma {:induction false} FiledIsPaired(clusters: seq<int>, docs: seq<int>, c: int, d: int)
    requires d in Filed(clusters, docs, c)
    ensures d in Paired(clusters, docs)
    decreases |clusters|
  {
    assert Paired(clusters, docs)[0] == docs[0];
    if !(clusters[0] == c && docs[0] == d) {
      FiledIsPaired(clusters[1..], docs[1..], c, d);
      assert Paired(clusters, docs)[1..] == Paired(clusters[1..], docs[1..]);
    }
  }

  lemma NegativeFiled(clusters: seq<int>, docs: seq<int>, c: int)
    requires exists d :: d in Filed(clusters, docs, c) && d < 0
    ensures exists d :: d in Paired(clusters, docs) && d < 0
  {
    var d :| d in Filed(clusters, docs, c) && d < 0;
    FiledIsPaired(clusters, docs, c, d);
  }
}
