/** Option and Result, and the few facts about finite collections that several
    components share. */
module Prelude {
  datatype Option<+T> = None | Some(value: T)

  datatype Result<+T, +E> = Ok(value: T) | Err(error: E)

  type Byte = b: int | 0 <= b < 256

  /** The elements of a sequence. */
  function Elems<T(==)>(s: seq<T>): set<T> {
    set x | x in s
  }

  ghost predicate NoDuplicates<T(!new)>(s: seq<T>) {
    forall i, j :: 0 <= i < j < |s| ==> s[i] != s[j]
  }

  lemma ElemsOfOneMore<T>(s: seq<T>, i: nat)
    requires i < |s|
    ensures Elems(s[..i + 1]) == Elems(s[..i]) + {s[i]}
  {
    assert s[..i + 1] == s[..i] + [s[i]];
  }

  /** Finitely many ranks have a strict upper bound. */
  lemma {:induction false} RankBound<T(!new)>(rank: map<T, nat>) returns (n: nat)
    ensures forall x :: x in rank ==> rank[x] < n
    decreases |rank|
  {
    if rank.Keys == {} {
      n := 0;
    } else {
      var x :| x in rank;
      assert |rank - {x}| < |rank| by {
        assert rank.Keys == (rank - {x}).Keys + {x};
      }
      n := RankBound(rank - {x});
      n := if n <= rank[x] then rank[x] + 1 else n;
    }
  }

  lemma SmallerSubset<T(!new)>(s: set<T>, t: set<T>)
    requires s < t
    ensures |s| < |t|
  {
    assert t == s + (t - s);
  }

  lemma {:induction false} DistinctCount<T(!new)>(s: seq<T>)
    requires NoDuplicates(s)
    ensures |Elems(s)| == |s|
    decreases |s|
  {
    if s != [] {
      var front := s[..|s| - 1];
      DistinctCount(front);
      assert s == front + [s[|s| - 1]];
      assert Elems(s) == Elems(front) + {s[|s| - 1]};
    }
  }

  lemma SubsetCount<T(!new)>(s: set<T>, t: set<T>)
    requires s <= t
    ensures |s| <= |t|
  {
    if s != t { SmallerSubset(s, t); }
  }
}
