/** Adopting an artifact with its whole lineage into a second registry. */
module Adoption {
  import opened Prelude
  import opened Graphs
  import opened Lineage
  import opened LineageSteps

  function MergedNodes(src: map<Id, Row>, dst: map<Id, Row>, s: set<Id>): map<Id, Row> {
    dst + (map a | a in s && a in src && a !in dst :: Row(src[a].payload, false))
  }

  function MergedEdges(src: set<(Id, Id)>, dst: set<(Id, Id)>, s: set<Id>): set<(Id, Id)> {
    dst + (set edge | edge in src && edge.0 in s)
  }

  function MergedHeads(src: map<string, Head>, dst: map<string, Head>, s: set<Id>): map<string, Head> {
    dst + (map key | key in src && src[key].node in s && key !in dst :: src[key])
  }

  /** The destination once the nodes of s have been copied over: missing nodes
      are inserted live, existing ones stay, and a key without head gets one. */
  function Merge(src: Db, dst: Db, s: set<Id>): Db {
    Db(MergedNodes(src.nodes, dst.nodes, s), MergedEdges(src.edges, dst.edges, s),
       MergedHeads(src.heads, dst.heads, s), dst.events)
  }

  /** The destination already holds something else under this id, or another
      generation of this key. */
  predicate Conflicts(src: Db, dst: Db, a: Id)
    requires a in src.nodes
  {
    var p := src.nodes[a].payload;
    || (a in dst.nodes && (dst.nodes[a].revoked || dst.nodes[a].payload != p || Parents(dst, a) != Parents(src, a)))
    || (p.Knowledge? && p.key in dst.heads && dst.heads[p.key] != Head(p.generation, a))
  }

  ghost function Adopt(h: Digest, src: Db, dst: Db, artifact: Id, principal: string,
                       srcNow: int, dstNow: int): Result<Db, Error> {
    if !IsValid(src, artifact, principal, srcNow) then Err(InvalidState)
    else
      var lineage := Ancestors(src, artifact);
      if exists a :: a in lineage && a != h(Content(src.nodes[a].payload, Parents(src, a))) then Err(InvalidState)
      else if exists a :: a in lineage && Conflicts(src, dst, a) then Err(InvalidState)
      else
        var merged := Merge(src, dst, lineage);
        if !IsValid(merged, artifact, principal, dstNow) then Err(InvalidState)
        else Ok(Logged(merged, Adopted(artifact, |lineage|)))
  }

  /** s is a part of the source closed under parents that the destination can take over. */
  ghost predicate Adoptable(src: Db, dst: Db, s: set<Id>) {
    && s <= src.nodes.Keys
    && Closed(src.edges, s)
    && (forall a :: a in s ==> !Conflicts(src, dst, a) && !src.nodes[a].revoked)
    && (forall a :: a in s && src.nodes[a].payload.Knowledge? ==> IsHead(src, a, src.nodes[a].payload.key))
  }

  /** The lineage of a valid artifact is adoptable unless the destination conflicts. */
  lemma ValidLineageAdoptable(src: Db, dst: Db, artifact: Id, principal: string, now: int)
    requires EndpointsKnown(src) && IsValid(src, artifact, principal, now)
    requires forall a :: a in Ancestors(src, artifact) ==> !Conflicts(src, dst, a)
    ensures Adoptable(src, dst, Ancestors(src, artifact))
  {
    var s := Ancestors(src, artifact);
    forall edge | edge in src.edges && edge.0 in s
      ensures edge.1 in s
    {
      assert edge == (edge.0, edge.1);
      ReachEdge(src.edges, edge.0, edge.1);
      ReachTrans(src.edges, artifact, edge.0, edge.1);
    }
    forall a | a in s
      ensures NodeAdmits(src, a, principal, now)
    {
    }
  }

  lemma MergedParents(src: Db, dst: Db, s: set<Id>)
    requires EndpointsKnown(src) && EndpointsKnown(dst) && Adoptable(src, dst, s)
    ensures var merged := Merge(src, dst, s);
            && EndpointsKnown(merged)
            && (forall a :: a in s ==> Parents(merged, a) == Parents(src, a))
            && (forall a :: a in dst.nodes ==> Parents(merged, a) == Parents(dst, a))
  {
    var merged := Merge(src, dst, s);
    forall a, p | a in s
      ensures (a, p) in merged.edges <==> (a, p) in src.edges
    {
      if (a, p) in dst.edges {
        assert a in dst.nodes && !Conflicts(src, dst, a);
        assert p in Parents(dst, a);
        assert p in Parents(src, a);
      }
    }
    forall a | a in s
      ensures Parents(merged, a) == Parents(src, a)
    {
      SameSuccessors(merged.edges, src.edges, a);
    }
    forall a | a in dst.nodes
      ensures Parents(merged, a) == Parents(dst, a)
    {
      if a in s {
        assert !Conflicts(src, dst, a);
      } else {
        SameSuccessors(merged.edges, dst.edges, a);
      }
    }
  }

  lemma SameSuccessors(e: set<(Id, Id)>, f: set<(Id, Id)>, a: Id)
    requires forall p :: (a, p) in e <==> (a, p) in f
    ensures Successors(e, a) == Successors(f, a)
  {
    forall p
      ensures p in Successors(e, a) <==> p in Successors(f, a)
    {
      if p in Successors(e, a) { assert (a, p) in e; assert (a, p) in f; }
      if p in Successors(f, a) { assert (a, p) in f; assert (a, p) in e; }
    }
  }

  lemma MergedExtends(src: Db, dst: Db, s: set<Id>)
    requires EndpointsKnown(src) && EndpointsKnown(dst) && Adoptable(src, dst, s)
    ensures Extends(dst, Merge(src, dst, s))
  {
    var merged := Merge(src, dst, s);
    MergedParents(src, dst, s);
    forall edge | edge in merged.edges && edge.0 in dst.nodes
      ensures edge in dst.edges
    {
      assert edge == (edge.0, edge.1);
      assert edge.1 in Parents(merged, edge.0);
      assert edge.1 in Parents(dst, edge.0);
    }
  }

  /** An adopted node has the same ancestors in both registries. */
  lemma MergedAncestors(src: Db, dst: Db, s: set<Id>, a: Id)
    requires EndpointsKnown(src) && EndpointsKnown(dst) && Adoptable(src, dst, s) && a in s
    ensures Ancestors(Merge(src, dst, s), a) == Ancestors(src, a) <= s
  {
    var merged := Merge(src, dst, s);
    MergedParents(src, dst, s);
    forall edge: (Id, Id) | edge.0 in s
      ensures edge in src.edges <==> edge in merged.edges
    {
      assert edge == (edge.0, edge.1);
      assert edge in src.edges <==> edge.1 in Parents(src, edge.0);
      assert edge in merged.edges <==> edge.1 in Parents(merged, edge.0);
    }
    forall x
      ensures x in Ancestors(merged, a) <==> x in Ancestors(src, a)
      ensures x in Ancestors(src, a) ==> x in s
    {
      ReachWithin(src.edges, merged.edges, s, a, x);
      if Reach(src.edges, a, x) {
        ReachClosed(src.edges, s, a, x);
      }
    }
  }

  lemma MergedWellFounded(src: Db, dst: Db, s: set<Id>)
    requires EndpointsKnown(src) && EndpointsKnown(dst) && Adoptable(src, dst, s)
    requires WellFounded(src.edges) && WellFounded(dst.edges)
    ensures WellFounded(Merge(src, dst, s).edges)
  {
    var merged := Merge(src, dst, s);
    var below: map<Id, nat> :| Ranked(dst.edges, below);
    var above: map<Id, nat> :| Ranked(src.edges, above);
    var n := RankBound(below);
    MergedParents(src, dst, s);
    var rank: map<Id, nat> := map x | x in merged.nodes ::
      if x in dst.nodes then (if x in below then below[x] else 0)
      else n + 1 + (if x in above then above[x] else 0);
    forall edge | edge in merged.edges
      ensures edge.0 in rank && edge.1 in rank && rank[edge.1] < rank[edge.0]
    {
      assert edge == (edge.0, edge.1);
      if edge.0 in dst.nodes {
        assert edge.1 in Parents(merged, edge.0);
        assert edge in dst.edges;
      } else {
        assert edge in src.edges;
      }
    }
    assert Ranked(merged.edges, rank);
  }

  lemma MergedPayloads(src: Db, dst: Db, s: set<Id>)
    requires Adoptable(src, dst, s)
    ensures var merged := Merge(src, dst, s);
            && merged.nodes.Keys == dst.nodes.Keys + s
            && (forall a :: a in s ==> merged.nodes[a] == Row(src.nodes[a].payload, false))
            && (forall a :: a in dst.nodes ==> merged.nodes[a] == dst.nodes[a])
  {
    forall a | a in s
      ensures a in dst.nodes ==> dst.nodes[a] == Row(src.nodes[a].payload, false)
    {
      assert !Conflicts(src, dst, a);
    }
  }

  lemma MergedHeaders(src: Db, dst: Db, s: set<Id>)
    requires EndpointsKnown(src) && EndpointsKnown(dst) && Adoptable(src, dst, s)
    requires HeadersExact(src) && HeadersExact(dst)
    ensures HeadersExact(Merge(src, dst, s))
  {
    var merged := Merge(src, dst, s);
    MergedPayloads(src, dst, s);
    MergedParents(src, dst, s);
    MergedExtends(src, dst, s);
    forall a | a in merged.nodes
      ensures HeaderExact(merged, a)
    {
      if a in s {
        MergedAncestors(src, dst, s, a);
        assert HeaderExact(src, a);
        assert OriginsAmong(merged, Ancestors(src, a)) == OriginsAmong(src, Ancestors(src, a));
        assert GenerationsAmong(merged, Ancestors(src, a)) == GenerationsAmong(src, Ancestors(src, a));
      } else {
        ExtendsKeepsAncestors(dst, merged, a);
        assert HeaderExact(dst, a);
        assert OriginsAmong(merged, Ancestors(dst, a)) == OriginsAmong(dst, Ancestors(dst, a));
        assert GenerationsAmong(merged, Ancestors(dst, a)) == GenerationsAmong(dst, Ancestors(dst, a));
      }
    }
  }

  lemma MergedHeadsKeep(src: Db, dst: Db, s: set<Id>)
    requires Adoptable(src, dst, s)
    requires HeadsKnown(src) && HeadsNewest(src) && HeadsKnown(dst) && HeadsNewest(dst)
    ensures HeadsKnown(Merge(src, dst, s)) && HeadsNewest(Merge(src, dst, s))
  {
    var merged := Merge(src, dst, s);
    MergedPayloads(src, dst, s);
    forall key | key in merged.heads
      ensures merged.heads[key].node in merged.nodes
      ensures var p := merged.nodes[merged.heads[key].node].payload;
              p.Knowledge? && p.key == key && p.generation == merged.heads[key].generation
    {
      MergedHeadKnown(src, dst, s, key);
    }
    forall a | a in merged.nodes && merged.nodes[a].payload.Knowledge?
      ensures var p := merged.nodes[a].payload;
              p.key in merged.heads && (merged.heads[p.key].node == a || p.generation < merged.heads[p.key].generation)
    {
      MergedHeadNewest(src, dst, s, a);
    }
  }

  lemma MergedHeadKnown(src: Db, dst: Db, s: set<Id>, key: string)
    requires Adoptable(src, dst, s) && HeadsKnown(src) && HeadsKnown(dst)
    requires key in Merge(src, dst, s).heads
    ensures var merged := Merge(src, dst, s);
            && merged.heads[key].node in merged.nodes
            && var p := merged.nodes[merged.heads[key].node].payload;
               p.Knowledge? && p.key == key && p.generation == merged.heads[key].generation
  {
    var merged := Merge(src, dst, s);
    if key in dst.heads {
      assert merged.heads[key] == dst.heads[key];
      assert dst.heads[key].node in dst.nodes;
    } else {
      assert merged.heads[key] == src.heads[key];
      assert !Conflicts(src, dst, src.heads[key].node);
    }
  }

  lemma MergedHeadNewest(src: Db, dst: Db, s: set<Id>, a: Id)
    requires Adoptable(src, dst, s) && HeadsKnown(src) && HeadsNewest(dst)
    requires a in Merge(src, dst, s).nodes && Merge(src, dst, s).nodes[a].payload.Knowledge?
    ensures var merged := Merge(src, dst, s);
            var p := merged.nodes[a].payload;
            p.key in merged.heads && (merged.heads[p.key].node == a || p.generation < merged.heads[p.key].generation)
  {
    var merged := Merge(src, dst, s);
    var key := merged.nodes[a].payload.key;
    if a in dst.nodes {
      assert merged.nodes[a] == dst.nodes[a];
      assert key in dst.heads && merged.heads[key] == dst.heads[key];
    } else {
      assert a in s && !Conflicts(src, dst, a) && IsHead(src, a, key);
    }
  }

  lemma MergedAddressed(h: Digest, src: Db, dst: Db, s: set<Id>)
    requires EndpointsKnown(src) && EndpointsKnown(dst) && Adoptable(src, dst, s)
    requires ContentAddressed(h, src) && ContentAddressed(h, dst) && RootsAreOrigins(src) && RootsAreOrigins(dst)
    ensures ContentAddressed(h, Merge(src, dst, s)) && RootsAreOrigins(Merge(src, dst, s))
  {
    var merged := Merge(src, dst, s);
    MergedPayloads(src, dst, s);
    MergedParents(src, dst, s);
  }

  lemma MergedRevokedClosed(src: Db, dst: Db, s: set<Id>)
    requires EndpointsKnown(src) && EndpointsKnown(dst) && Adoptable(src, dst, s)
    requires RevokedClosed(dst)
    ensures RevokedClosed(Merge(src, dst, s))
  {
    var merged := Merge(src, dst, s);
    MergedPayloads(src, dst, s);
    MergedParents(src, dst, s);
    forall edge | edge in merged.edges && !merged.nodes[edge.0].revoked
      ensures !merged.nodes[edge.1].revoked
    {
      assert edge == (edge.0, edge.1);
      if edge.0 in s {
        assert edge.1 in Parents(merged, edge.0);
        assert edge in src.edges;
      } else {
        assert edge in dst.edges;
      }
    }
  }

  lemma MergeKeeps(h: Digest, src: Db, dst: Db, s: set<Id>)
    requires Inv(h, src) && Inv(h, dst) && Adoptable(src, dst, s)
    ensures Inv(h, Merge(src, dst, s)) && Extends(dst, Merge(src, dst, s))
  {
    MergedParents(src, dst, s);
    MergedExtends(src, dst, s);
    MergedWellFounded(src, dst, s);
    MergedHeaders(src, dst, s);
    MergedHeadsKeep(src, dst, s);
    MergedAddressed(h, src, dst, s);
    MergedRevokedClosed(src, dst, s);
  }

  /** After a successful adoption both registries agree on the whole lineage,
      which is live, and the destination still satisfies the invariant. */
  lemma AdoptKeeps(h: Digest, src: Db, dst: Db, artifact: Id, principal: string, srcNow: int, dstNow: int)
    requires Inv(h, src) && Inv(h, dst)
    requires Adopt(h, src, dst, artifact, principal, srcNow, dstNow).Ok?
    ensures var after := Adopt(h, src, dst, artifact, principal, srcNow, dstNow).value;
            && Inv(h, after) && Extends(dst, after)
            && Ancestors(after, artifact) == Ancestors(src, artifact)
            && (forall a :: a in Ancestors(src, artifact) ==>
                  && a in after.nodes && after.nodes[a] == Row(src.nodes[a].payload, false)
                  && Parents(after, a) == Parents(src, a)
                  && (src.nodes[a].payload.Knowledge? ==> IsHead(after, a, src.nodes[a].payload.key)))
            && (forall a :: a in after.nodes ==> a in dst.nodes || a in Ancestors(src, artifact))
  {
    var s := Ancestors(src, artifact);
    ValidLineageAdoptable(src, dst, artifact, principal, srcNow);
    MergeKeeps(h, src, dst, s);
    MergedPayloads(src, dst, s);
    MergedParents(src, dst, s);
    ReachRefl(src.edges, artifact);
    MergedAncestors(src, dst, s, artifact);
    var merged := Merge(src, dst, s);
    var event := Adopted(artifact, |s|);
    LoggedKeeps(h, merged, event);
    ExtendsTransitive(dst, merged, Logged(merged, event));
    ExtendsKeepsAncestors(merged, Logged(merged, event), artifact);
    forall a | a in s
      ensures Parents(Logged(merged, event), a) == Parents(src, a)
      ensures src.nodes[a].payload.Knowledge? ==> IsHead(merged, a, src.nodes[a].payload.key)
    {
      assert Parents(Logged(merged, event), a) == Parents(merged, a);
      AdoptedIsHead(src, dst, s, a);
    }
  }

  lemma AdoptedIsHead(src: Db, dst: Db, s: set<Id>, a: Id)
    requires Adoptable(src, dst, s) && a in s
    ensures src.nodes[a].payload.Knowledge? ==> IsHead(Merge(src, dst, s), a, src.nodes[a].payload.key)
  {
    assert !Conflicts(src, dst, a);
  }

  lemma MergedValidIff(src: Db, dst: Db, artifact: Id, principal: string, srcNow: int, dstNow: int)
    requires EndpointsKnown(src) && EndpointsKnown(dst) && IsValid(src, artifact, principal, srcNow)
    requires Adoptable(src, dst, Ancestors(src, artifact))
    ensures IsValid(Merge(src, dst, Ancestors(src, artifact)), artifact, principal, dstNow) <==>
            forall a :: a in Ancestors(src, artifact) ==> InWindow(src.nodes[a].payload, dstNow)
  {
    var s := Ancestors(src, artifact);
    var merged := Merge(src, dst, s);
    ReachRefl(src.edges, artifact);
    MergedAncestors(src, dst, s, artifact);
    MergedPayloads(src, dst, s);
    forall a | a in s
      ensures NodeAdmits(merged, a, principal, dstNow) <==> InWindow(src.nodes[a].payload, dstNow)
    {
      AdoptedIsHead(src, dst, s, a);
      assert NodeAdmits(src, a, principal, srcNow);
    }
  }

  /** Adoption succeeds exactly when the source admits the artifact, nothing in
      its lineage conflicts, and the destination's clock is inside every window:
      of the closing validity check only the windows can still fail. */
  lemma AdoptSucceedsIff(h: Digest, src: Db, dst: Db, artifact: Id, principal: string, srcNow: int, dstNow: int)
    requires Inv(h, src) && Inv(h, dst)
    ensures Adopt(h, src, dst, artifact, principal, srcNow, dstNow).Ok? <==>
            && IsValid(src, artifact, principal, srcNow)
            && (forall a :: a in Ancestors(src, artifact) ==> !Conflicts(src, dst, a))
            && (forall a :: a in Ancestors(src, artifact) ==> InWindow(src.nodes[a].payload, dstNow))
  {
    if && IsValid(src, artifact, principal, srcNow)
       && forall a :: a in Ancestors(src, artifact) ==> !Conflicts(src, dst, a)
    {
      ValidLineageAdoptable(src, dst, artifact, principal, srcNow);
      MergedValidIff(src, dst, artifact, principal, srcNow, dstNow);
    }
  }
}
