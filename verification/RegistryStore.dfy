/** The registry as the object the rest of the system calls: four tables that
    its methods update, each method proved against the operation it performs
    on the tables as a value. */
module RegistryStore {
  import opened Prelude
  import opened Graphs
  import opened Lineage
  import opened LineageSteps
  import opened Adoption

  /** Ancestors of a growing set of parents. */
  lemma AncestorsOfOneMore(db: Db, ids: set<Id>, id: Id)
    ensures AncestorsOfAll(db, ids + {id}) == AncestorsOfAll(db, ids) + Ancestors(db, id)
  {
    forall x
      ensures x in AncestorsOfAll(db, ids + {id}) <==> x in AncestorsOfAll(db, ids) || x in Ancestors(db, id)
    {
      if x in AncestorsOfAll(db, ids + {id}) {
        var p :| p in ids + {id} && Reach(db.edges, p, x);
      }
      if x in AncestorsOfAll(db, ids) {
        var p :| p in ids && Reach(db.edges, p, x);
        assert p in ids + {id};
      }
      if x in Ancestors(db, id) {
        assert id in ids + {id};
      }
    }
  }

  lemma ClosureIsAncestors(db: Db, id: Id, seen: set<Id>)
    requires EndpointsKnown(db) && id in db.nodes && forall x :: x in seen <==> Reach(db.edges, id, x)
    ensures seen == Ancestors(db, id)
  {
    forall x | x in seen
      ensures x in db.nodes
    {
      assert Closed(db.edges, db.nodes.Keys);
      ReachClosed(db.edges, db.nodes.Keys, id, x);
    }
  }

  lemma ClosureIsDescendants(db: Db, id: Id, seen: set<Id>)
    requires EndpointsKnown(db) && id in db.nodes && forall x :: x in seen <==> Reach(Reversed(db.edges), id, x)
    ensures seen == Descendants(db, id)
  {
    forall x
      ensures x in seen <==> x in Descendants(db, id)
    {
      ReachReversed(db.edges, x, id);
      if x in seen {
        assert Closed(Reversed(db.edges), db.nodes.Keys);
        ReachClosed(Reversed(db.edges), db.nodes.Keys, id, x);
      }
    }
  }

  class Registry {
    const digest: Digest
    var nodes: map<Id, Row>
    var edges: set<(Id, Id)>
    var heads: map<string, Head>
    var events: seq<Event>

    function Tables(): Db
      reads this
    {
      Db(nodes, edges, heads, events)
    }

    ghost predicate Valid()
      reads this
    {
      Injective(digest) && Inv(digest, Tables())
    }

    constructor (digest: Digest)
      requires Injective(digest)
      ensures Valid() && Tables() == EMPTY && this.digest == digest
    {
      this.digest := digest;
      nodes, edges, heads, events := map[], {}, map[], [];
      new;
      assert Ranked(edges, map[]);
    }

    method AncestorsOf(id: Id) returns (r: Result<set<Id>, Error>)
      requires EndpointsKnown(Tables())
      ensures r == if id in nodes then Ok(Ancestors(Tables(), id)) else Err(InvalidState)
    {
      if id !in nodes { return Err(InvalidState); }
      var seen := Closure(edges, id);
      ClosureIsAncestors(Tables(), id, seen);
      return Ok(seen);
    }

    /** True when the check passes, false when it raises. */
    method CheckValid(id: Id, principal: string, now: int) returns (ok: bool)
      requires EndpointsKnown(Tables())
      ensures ok == IsValid(Tables(), id, principal, now)
    {
      var found := AncestorsOf(id);
      if found.Err? { return false; }
      var todo := found.value;
      while todo != {}
        invariant todo <= Ancestors(Tables(), id)
        invariant forall a :: a in Ancestors(Tables(), id) && a !in todo ==> NodeAdmits(Tables(), a, principal, now)
        decreases todo
      {
        var a :| a in todo;
        if !NodeAdmits(Tables(), a, principal, now) { return false; }
        todo := todo - {a};
      }
      return true;
    }

    /** Checks a list of nodes in order, stopping at the first that fails. */
    method CheckAll(ids: seq<Id>, principal: string, now: int) returns (ok: bool)
      requires EndpointsKnown(Tables())
      ensures ok <==> forall id :: id in Elems(ids) ==> IsValid(Tables(), id, principal, now)
    {
      for i := 0 to |ids|
        invariant forall id :: id in ids[..i] ==> IsValid(Tables(), id, principal, now)
      {
        var valid := CheckValid(ids[i], principal, now);
        if !valid { return false; }
      }
      return true;
    }

    /** Inserts one node below its parents. Nothing changes when it raises. */
    method Insert(payload: Payload, parents: set<Id>) returns (r: Result<Id, Error>)
      modifies this`nodes, this`edges
      ensures var spec := Add(digest, old(Tables()), payload, parents);
              && r.Ok? == spec.Ok?
              && (r.Err? ==> r.error == spec.error && Tables() == old(Tables()))
              && (r.Ok? ==> spec.value == (Tables(), r.value))
    {
      var id := digest(Content(payload, parents));
      if id in nodes {
        return if nodes[id].revoked then Err(InvalidState) else Ok(id);
      }
      if !(parents <= nodes.Keys) { return Err(InvalidState); }
      nodes := nodes[id := Row(payload, false)];
      edges := edges + set p | p in parents :: (id, p);
      return Ok(id);
    }

    method AddOrigin(namespace: string, recordId: string, version: string, contentHash: string, acl: set<string>)
        returns (r: Result<Id, Error>)
      requires Valid()
      modifies this
      ensures Valid()
      ensures var spec := Add(digest, old(Tables()), Origin(namespace, recordId, version, contentHash, acl), {});
              && r.Ok? == spec.Ok?
              && (r.Err? ==> r.error == spec.error && Tables() == old(Tables()))
              && (r.Ok? ==> spec.value == (Tables(), r.value))
    {
      var payload := Origin(namespace, recordId, version, contentHash, acl);
      ghost var before := Tables();
      r := Insert(payload, {});
      if r.Ok? { AddKeeps(digest, before, payload, {}); }
    }

    method PublishKnowledge(now: int, key: string, semantic: Semantic, parents: seq<Id>, principal: string,
                            acl: set<string>, lifecycle: Option<Lifecycle>) returns (r: Result<Id, Error>)
      requires Valid()
      modifies this
      ensures Valid()
      ensures var spec := Publish(digest, old(Tables()), now, key, semantic, Elems(parents), principal, acl, lifecycle);
              && r.Ok? == spec.Ok?
              && (r.Err? ==> r.error == spec.error && Tables() == old(Tables()))
              && (r.Ok? ==> spec.value == (Tables(), r.value))
    {
      ghost var before := Tables();
      if parents == [] {
        assert Elems(parents) == {};
        return Err(InvalidState);
      }
      assert parents[0] in Elems(parents);
      if !WindowOrdered(lifecycle) { return Err(ValueError); }
      var valid := CheckAll(parents, principal, now);
      if !valid { return Err(InvalidState); }
      var payload := KnowledgePayload(Tables(), key, semantic, acl, lifecycle);
      PublishEffect(digest, before, now, key, semantic, Elems(parents), principal, acl, lifecycle);
      PublishKeeps(digest, before, now, key, semantic, Elems(parents), principal, acl, lifecycle);
      r := Insert(payload, Elems(parents));
      heads := heads[key := Head(payload.generation, r.value)];
      events := events + [Published(r.value, key, payload.generation)];
    }

    /** The origins and generations above one more parent are added to those
        already collected. */
    method Collect(parent: Id, origins: set<Id>, knowledge: map<Id, Generation>, ghost above: set<Id>)
        returns (origins': set<Id>, knowledge': map<Id, Generation>)
      requires EndpointsKnown(Tables()) && parent in nodes
      requires origins == OriginsAmong(Tables(), above) && knowledge == GenerationsAmong(Tables(), above)
      ensures origins' == OriginsAmong(Tables(), above + Ancestors(Tables(), parent))
      ensures knowledge' == GenerationsAmong(Tables(), above + Ancestors(Tables(), parent))
    {
      origins', knowledge' := origins, knowledge;
      var found := AncestorsOf(parent);
      var todo := found.value;
      ghost var seen := {};
      assert above + seen == above;
      while todo != {}
        invariant todo !! seen && todo + seen == Ancestors(Tables(), parent)
        invariant origins' == OriginsAmong(Tables(), above + seen)
        invariant knowledge' == GenerationsAmong(Tables(), above + seen)
        decreases todo
      {
        var a :| a in todo;
        var p := nodes[a].payload;
        if p.Origin? { origins' := origins' + {a}; }
        if p.Knowledge? { knowledge' := knowledge'[a := Generation(p.key, p.generation)]; }
        todo, seen := todo - {a}, seen + {a};
        assert origins' == OriginsAmong(Tables(), above + seen);
        assert knowledge' == GenerationsAmong(Tables(), above + seen);
      }
      assert seen == Ancestors(Tables(), parent);
    }

    /** Validates the parents in order and gathers what their ancestors say. */
    method CollectAll(parents: seq<Id>, principal: string, now: int)
        returns (ok: bool, origins: set<Id>, knowledge: map<Id, Generation>)
      requires EndpointsKnown(Tables())
      ensures ok <==> forall p :: p in Elems(parents) ==> IsValid(Tables(), p, principal, now)
      ensures ok ==> origins == OriginsAmong(Tables(), AncestorsOfAll(Tables(), Elems(parents)))
      ensures ok ==> knowledge == GenerationsAmong(Tables(), AncestorsOfAll(Tables(), Elems(parents)))
    {
      ok, origins, knowledge := true, {}, map[];
      assert AncestorsOfAll(Tables(), Elems(parents[..0])) == {};
      for i := 0 to |parents|
        invariant forall p :: p in Elems(parents[..i]) ==> IsValid(Tables(), p, principal, now)
        invariant origins == OriginsAmong(Tables(), AncestorsOfAll(Tables(), Elems(parents[..i])))
        invariant knowledge == GenerationsAmong(Tables(), AncestorsOfAll(Tables(), Elems(parents[..i])))
      {
        var valid := CheckValid(parents[i], principal, now);
        if !valid {
          assert parents[i] in Elems(parents);
          return false, origins, knowledge;
        }
        origins, knowledge := Collect(parents[i], origins, knowledge, AncestorsOfAll(Tables(), Elems(parents[..i])));
        ElemsOfOneMore(parents, i);
        AncestorsOfOneMore(Tables(), Elems(parents[..i]), parents[i]);
      }
      assert parents[..|parents|] == parents;
    }

    /** The part shared by `artifact` and `commit`, inside their transactions. */
    method DeriveNode(now: int, kind: string, body: string, parents: seq<Id>, principal: string)
        returns (r: Result<Id, Error>)
      requires EndpointsKnown(Tables())
      modifies this`nodes, this`edges
      ensures var spec := Derive(digest, old(Tables()), now, kind, body, Elems(parents), principal);
              && r.Ok? == spec.Ok?
              && (r.Err? ==> r.error == spec.error && Tables() == old(Tables()))
              && (r.Ok? ==> spec.value == (Tables(), r.value))
    {
      if kind !in ARTIFACT_KINDS { return Err(ValueError); }
      if parents == [] {
        assert Elems(parents) == {};
        return Err(InvalidState);
      }
      assert parents[0] in Elems(parents);
      var ok, origins, knowledge := CollectAll(parents, principal, now);
      if !ok { return Err(InvalidState); }
      if knowledge.Keys == {} || origins == {} { return Err(InvalidState); }
      r := Insert(Artifact(kind, body, origins, knowledge, Elems(parents)), Elems(parents));
    }

    method BuildArtifact(now: int, kind: string, body: string, parents: seq<Id>, principal: string)
        returns (r: Result<Id, Error>)
      requires Valid()
      modifies this`nodes, this`edges
      ensures Valid()
      ensures var spec := Derive(digest, old(Tables()), now, kind, body, Elems(parents), principal);
              && r.Ok? == spec.Ok?
              && (r.Err? ==> r.error == spec.error && Tables() == old(Tables()))
              && (r.Ok? ==> spec.value == (Tables(), r.value))
    {
      ghost var before := Tables();
      r := DeriveNode(now, kind, body, parents, principal);
      if r.Ok? { DeriveKeeps(digest, before, now, kind, body, Elems(parents), principal); }
    }

    /** Reads only: the snapshot is the set itself, accepted or not. */
    method TakeSnapshot(ids: seq<Id>, principal: string, now: int) returns (accepted: bool)
      requires EndpointsKnown(Tables())
      ensures accepted == Accepted(Tables(), Elems(ids), principal, now)
    {
      if ids == [] {
        assert Elems(ids) == {};
        return false;
      }
      assert ids[0] in Elems(ids);
      accepted := CheckAll(ids, principal, now);
    }

    /** The body of the commit transaction. */
    method CommitInside(now: int, ids: seq<Id>, principal: string, text: string) returns (r: Result<Id, Error>)
      requires EndpointsKnown(Tables())
      modifies this
      ensures var spec := Commit(digest, old(Tables()), now, Elems(ids), principal, text);
              && r.Ok? == spec.Ok?
              && (r.Err? ==> r.error == spec.error && Tables() == old(Tables()))
              && (r.Ok? ==> spec.value == (Tables(), r.value))
    {
      var valid := CheckAll(ids, principal, now);
      if !valid { return Err(InvalidState); }
      r := DeriveNode(now, "answer", text, ids, principal);
      if r.Ok? {
        events := events + [Committed(r.value)];
      }
    }

    method CommitAnswer(now: int, ids: seq<Id>, principal: string, text: string) returns (r: Result<Id, Error>)
      requires Valid()
      modifies this
      ensures Valid()
      ensures var spec := Commit(digest, old(Tables()), now, Elems(ids), principal, text);
              && r.Ok? == spec.Ok?
              && (r.Err? ==> r.error == spec.error && Tables() == old(Tables()))
              && (r.Ok? ==> spec.value == (Tables(), r.value))
    {
      ghost var before := Tables();
      r := CommitInside(now, ids, principal, text);
      if r.Ok? { CommitKeeps(digest, before, now, Elems(ids), principal, text); }
    }

    method RevokeNode(id: Id) returns (r: Result<set<Id>, Error>)
      requires Valid()
      modifies this
      ensures Valid()
      ensures var spec := Revoke(old(Tables()), id);
              && r.Ok? == spec.Ok?
              && (r.Err? ==> r.error == spec.error && Tables() == old(Tables()))
              && (r.Ok? ==> spec.value == (Tables(), r.value))
    {
      if id !in nodes { return Err(InvalidState); }
      ghost var before := Tables();
      var affected := Closure(Reversed(edges), id);
      ClosureIsDescendants(before, id, affected);
      RevokeKeeps(digest, before, id);
      nodes := MarkRevoked(Tables(), affected).nodes;
      events := events + [Revoked(id, affected)];
      return Ok(affected);
    }

    /** Copies the lineage of an artifact from another registry; a conflict or a
        failing final check puts every table back. */
    method AdoptFrom(source: Registry, artifact: Id, principal: string, sourceNow: int, now: int)
        returns (r: Result<Id, Error>)
      requires Valid() && source.Valid() && source.digest == digest
      modifies this
      ensures Valid()
      ensures source == this ==> r == Err(ValueError) && Tables() == old(Tables())
      ensures source != this ==>
              var spec := Adopt(digest, source.Tables(), old(Tables()), artifact, principal, sourceNow, now);
              && r.Ok? == spec.Ok?
              && (r.Err? ==> r.error == spec.error && Tables() == old(Tables()))
              && (r.Ok? ==> r.value == artifact && spec.value == Tables())
    {
      if source == this { return Err(ValueError); }
      ghost var src, dst := source.Tables(), Tables();
      r := AdoptInside(source, artifact, principal, sourceNow, now);
      if r.Ok? { AdoptKeeps(digest, src, dst, artifact, principal, sourceNow, now); }
    }

    method AdoptInside(source: Registry, artifact: Id, principal: string, sourceNow: int, now: int)
        returns (r: Result<Id, Error>)
      requires source != this && source.digest == digest
      requires EndpointsKnown(Tables()) && EndpointsKnown(source.Tables())
      requires WellFounded(source.edges) && HeadsKnown(source.Tables())
      modifies this
      ensures var spec := Adopt(digest, source.Tables(), old(Tables()), artifact, principal, sourceNow, now);
              && r.Ok? == spec.Ok?
              && (r.Err? ==> r.error == spec.error && Tables() == old(Tables()))
              && (r.Ok? ==> r.value == artifact && spec.value == Tables())
    {
      ghost var src, dst := source.Tables(), Tables();
      var valid := source.CheckValid(artifact, principal, sourceNow);
      if !valid { return Err(InvalidState); }
      var found := source.AncestorsOf(artifact);
      var lineage := found.value;
      if a :| a in lineage && a != digest(Content(source.nodes[a].payload, Parents(source.Tables(), a))) {
        return Err(InvalidState);
      }
      ValidLineageIsHead(src, artifact, principal, sourceNow);
      assert forall a :: a in lineage ==> Copyable(digest, src, a);
      var ordered := OrderLineage(source, artifact, lineage);
      var savedNodes, savedEdges, savedHeads := nodes, edges, heads;
      var fits := CopyAll(source, ordered, src, dst);
      if !fits {
        nodes, edges, heads := savedNodes, savedEdges, savedHeads;
        return Err(InvalidState);
      }
      ValidLineageAdoptable(src, dst, artifact, principal, sourceNow);
      MergedParents(src, dst, lineage);
      valid := CheckValid(artifact, principal, now);
      if !valid {
        nodes, edges, heads := savedNodes, savedEdges, savedHeads;
        return Err(InvalidState);
      }
      events := events + [Adopted(artifact, |lineage|)];
      return Ok(artifact);
    }

    /** Lists every ancestor once, parents first. */
    method OrderLineage(source: Registry, artifact: Id, lineage: set<Id>) returns (ordered: seq<Id>)
      requires EndpointsKnown(source.Tables()) && WellFounded(source.edges)
      requires artifact in source.nodes && lineage == Ancestors(source.Tables(), artifact)
      ensures Elems(ordered) == lineage && NoDuplicates(ordered) && ParentsFirst(source.edges, ordered)
    {
      ghost var src := source.Tables();
      var walk := new Traversal(source.edges, lineage);
      LineageClosed(src, artifact);
      ReachRefl(src.edges, artifact);
      var acyclic := walk.Visit(artifact);
      if !acyclic {
        ghost var c, p :| (c, p) in src.edges && Reach(src.edges, p, c);
        NoCycle(src.edges, c, p);
        assert false;
      }
      walk.OrderedIsLineage(src, artifact);
      return walk.ordered;
    }

    /** The copying loop over the ordered lineage. */
    method CopyAll(source: Registry, ordered: seq<Id>, ghost src: Db, ghost dst: Db) returns (fits: bool)
      requires source != this && source.Tables() == src && Tables() == dst
      requires EndpointsKnown(src) && EndpointsKnown(dst) && HeadsKnown(src)
      requires NoDuplicates(ordered) && ParentsFirst(src.edges, ordered)
      requires forall a :: a in ordered ==> Copyable(digest, src, a)
      modifies this`nodes, this`edges, this`heads
      ensures fits <==> forall a :: a in Elems(ordered) ==> a in src.nodes && !Conflicts(src, dst, a)
      ensures fits ==> Tables() == Merge(src, dst, Elems(ordered))
    {
      assert Tables() == Merge(src, dst, Elems(ordered[..0]));
      assert forall a :: a in ordered ==> a in src.nodes;
      for i := 0 to |ordered|
        invariant Elems(ordered[..i]) <= src.nodes.Keys
        invariant Tables() == Merge(src, dst, Elems(ordered[..i]))
        invariant forall a :: a in Elems(ordered[..i]) ==> !Conflicts(src, dst, a)
      {
        var a := ordered[i];
        assert a in Elems(ordered);
        assert forall p :: p in Parents(src, a) ==> (a, p) in src.edges && p in ordered[..i];
        fits := AdoptNode(a, source.nodes[a].payload, Parents(source.Tables(), a), src, dst, Elems(ordered[..i]));
        if !fits { return false; }
        ElemsOfOneMore(ordered, i);
      }
      assert ordered[..|ordered|] == ordered;
      return true;
    }

    /** One iteration of the copying loop. */
    method AdoptNode(a: Id, payload: Payload, parents: set<Id>, ghost src: Db, ghost dst: Db, ghost copied: set<Id>)
        returns (fits: bool)
      requires EndpointsKnown(src) && EndpointsKnown(dst) && HeadsKnown(src)
      requires Tables() == Merge(src, dst, copied)
      requires copied <= src.nodes.Keys && a !in copied && Copyable(digest, src, a) && Parents(src, a) <= copied
      requires payload == src.nodes[a].payload && parents == Parents(src, a)
      modifies this`nodes, this`edges, this`heads
      ensures fits <==> !Conflicts(src, dst, a)
      ensures fits ==> Tables() == Merge(src, dst, copied + {a})
    {
      MergeStepChecks(src, dst, copied, a);
      if !Conflicts(src, dst, a) {
        MergeStepGraph(src, dst, copied, a);
        MergeStepHeads(src, dst, copied, a);
      }
      if a in nodes {
        if nodes[a].revoked || nodes[a].payload != payload || Parents(Tables(), a) != parents { return false; }
      }
      var added := Insert(payload, parents);
      if added.Err? || added.value != a { return false; }
      if payload.Knowledge? {
        if payload.key in heads && heads[payload.key] != Head(payload.generation, a) { return false; }
        if payload.key !in heads {
          heads := heads[payload.key := Head(payload.generation, a)];
        }
      }
      return true;
    }
  }

  /** A source node whose id is the digest of its content and, if knowledge, the head of its key. */
  ghost predicate Copyable(h: Digest, src: Db, a: Id) {
    && a in src.nodes
    && h(Content(src.nodes[a].payload, Parents(src, a))) == a
    && (src.nodes[a].payload.Knowledge? ==> IsHead(src, a, src.nodes[a].payload.key))
  }

  lemma ValidLineageIsHead(db: Db, artifact: Id, principal: string, now: int)
    requires IsValid(db, artifact, principal, now)
    ensures forall a :: a in Ancestors(db, artifact) && db.nodes[a].payload.Knowledge? ==>
              IsHead(db, a, db.nodes[a].payload.key)
  {
    forall a | a in Ancestors(db, artifact) && db.nodes[a].payload.Knowledge?
      ensures IsHead(db, a, db.nodes[a].payload.key)
    {
      assert NodeAdmits(db, a, principal, now);
    }
  }

  lemma LineageClosed(db: Db, artifact: Id)
    requires EndpointsKnown(db) && artifact in db.nodes
    ensures Closed(db.edges, Ancestors(db, artifact))
  {
    forall edge | edge in db.edges && edge.0 in Ancestors(db, artifact)
      ensures edge.1 in Ancestors(db, artifact)
    {
      assert edge == (edge.0, edge.1);
      ReachEdge(db.edges, edge.0, edge.1);
      ReachTrans(db.edges, artifact, edge.0, edge.1);
    }
  }

  /** The nodes copied so far hide nothing from the checks made for the next node. */
  lemma MergeStepChecks(src: Db, dst: Db, copied: set<Id>, a: Id)
    requires EndpointsKnown(dst) && a in src.nodes && a !in copied
    requires src.nodes[a].payload.Knowledge? ==> IsHead(src, a, src.nodes[a].payload.key)
    ensures var now := Merge(src, dst, copied);
            && (a in now.nodes <==> a in dst.nodes)
            && (a in dst.nodes ==> now.nodes[a] == dst.nodes[a] && Parents(now, a) == Parents(dst, a))
            && (src.nodes[a].payload.Knowledge? ==>
                  var key := src.nodes[a].payload.key;
                  (key in now.heads <==> key in dst.heads) && (key in dst.heads ==> now.heads[key] == dst.heads[key]))
            && copied * src.nodes.Keys <= now.nodes.Keys
  {
    var now := Merge(src, dst, copied);
    SameSuccessors(now.edges, dst.edges, a);
  }

  lemma MergeStepGraph(src: Db, dst: Db, copied: set<Id>, a: Id)
    requires EndpointsKnown(dst) && a in src.nodes && a !in copied
    requires !Conflicts(src, dst, a)
    ensures var now, next := Merge(src, dst, copied), Merge(src, dst, copied + {a});
            && next.nodes == (if a in dst.nodes then now.nodes else now.nodes[a := Row(src.nodes[a].payload, false)])
            && next.edges == (if a in dst.nodes then now.edges else now.edges + set p | p in Parents(src, a) :: (a, p))
  {
    MergeStepNodes(src.nodes, dst.nodes, copied, a);
    MergeStepEdges(src.edges, dst.edges, copied, a);
    if a in dst.nodes {
      forall edge | edge in (set p | p in Parents(src, a) :: (a, p))
        ensures edge in dst.edges
      {
        assert edge.1 in Parents(dst, a);
        assert (a, edge.1) in dst.edges;
      }
      assert MergedEdges(src.edges, dst.edges, copied) + (set p | p in Parents(src, a) :: (a, p))
          == MergedEdges(src.edges, dst.edges, copied);
    }
  }

  lemma MergeStepNodes(src: map<Id, Row>, dst: map<Id, Row>, copied: set<Id>, a: Id)
    requires a in src && a !in copied
    ensures MergedNodes(src, dst, copied + {a}) ==
            if a in dst then MergedNodes(src, dst, copied) else MergedNodes(src, dst, copied)[a := Row(src[a].payload, false)]
  {
  }

  lemma MergeStepEdges(src: set<(Id, Id)>, dst: set<(Id, Id)>, copied: set<Id>, a: Id)
    ensures MergedEdges(src, dst, copied + {a}) ==
            MergedEdges(src, dst, copied) + set p | p in Successors(src, a) :: (a, p)
  {
    var own := set p | p in Successors(src, a) :: (a, p);
    forall edge
      ensures edge in MergedEdges(src, dst, copied + {a}) <==> edge in MergedEdges(src, dst, copied) + own
    {
      assert edge == (edge.0, edge.1);
      if edge in src && edge.0 == a {
        assert edge.1 in Successors(src, a);
        assert edge in own;
      }
      if edge in own {
        assert edge.0 == a && edge.1 in Successors(src, a);
        assert (a, edge.1) in src;
      }
    }
  }

  lemma MergeStepHeads(src: Db, dst: Db, copied: set<Id>, a: Id)
    requires HeadsKnown(src) && a in src.nodes && a !in copied && !Conflicts(src, dst, a)
    requires src.nodes[a].payload.Knowledge? ==> IsHead(src, a, src.nodes[a].payload.key)
    ensures var now, next := Merge(src, dst, copied), Merge(src, dst, copied + {a});
            var p := src.nodes[a].payload;
            next.heads == if p.Knowledge? && p.key !in dst.heads then now.heads[p.key := Head(p.generation, a)] else now.heads
  {
    var p := src.nodes[a].payload;
    forall key | key in src.heads && src.heads[key].node == a
      ensures p.Knowledge? && p.key == key && src.heads[key] == Head(p.generation, a)
    {
    }
    if p.Knowledge? && p.key !in dst.heads {
      HeadMapsGain(src.heads, dst.heads, copied, a, p.key);
    } else {
      HeadMapsSame(src.heads, dst.heads, copied, a);
    }
  }

  lemma HeadMapsSame(src: map<string, Head>, dst: map<string, Head>, copied: set<Id>, a: Id)
    requires forall key :: key in src && src[key].node == a ==> key in dst
    ensures MergedHeads(src, dst, copied + {a}) == MergedHeads(src, dst, copied)
  {
  }

  lemma HeadMapsGain(src: map<string, Head>, dst: map<string, Head>, copied: set<Id>, a: Id, key: string)
    requires key in src && src[key].node == a && key !in dst
    requires forall other :: other in src && src[other].node == a ==> other == key
    ensures MergedHeads(src, dst, copied + {a}) == MergedHeads(src, dst, copied)[key := src[key]]
  {
  }

  // ------------------------------------------------------ the ordering visit

  ghost predicate ParentsFirst(e: set<(Id, Id)>, ordered: seq<Id>) {
    forall i, p :: 0 <= i < |ordered| && (ordered[i], p) in e ==> p in ordered[..i]
  }

  lemma AppendParentsFirst(e: set<(Id, Id)>, ordered: seq<Id>, key: Id)
    requires ParentsFirst(e, ordered) && forall p :: (key, p) in e ==> p in ordered
    ensures ParentsFirst(e, ordered + [key])
  {
    var longer := ordered + [key];
    forall i, p | 0 <= i < |longer| && (longer[i], p) in e
      ensures p in longer[..i]
    {
      if i < |ordered| {
        assert longer[..i] == ordered[..i];
      } else {
        assert longer[..i] == ordered;
      }
    }
  }

  /** The state of the depth-first visit that lists parents before children. */
  class Traversal {
    const edges: set<(Id, Id)>
    const known: set<Id>
    var ordered: seq<Id>
    var done: set<Id>
    var active: set<Id>

    constructor (edges: set<(Id, Id)>, known: set<Id>)
      ensures this.edges == edges && this.known == known
      ensures ordered == [] && done == {} && active == {}
    {
      this.edges, this.known := edges, known;
      ordered, done, active := [], {}, {};
    }

    ghost predicate Ordered()
      reads this
    {
      && done == Elems(ordered) && done <= known
      && NoDuplicates(ordered)
      && ParentsFirst(edges, ordered)
    }

    /** Lists everything above key that is not listed yet. It gives up only on
        a real cycle, and returns on every graph because `active` grows. */
    method Visit(key: Id) returns (ok: bool)
      requires Ordered() && key in known && Closed(edges, known)
      requires active <= known && active !! done
      requires forall a :: a in active ==> exists m :: (a, m) in edges && Reach(edges, m, key)
      modifies this
      ensures ok ==> Ordered() && active == old(active) && active !! done
      ensures ok ==> key in done && old(ordered) <= ordered && old(done) <= done
      ensures ok ==> forall x :: x in done ==> x in old(done) || Reach(edges, key, x)
      ensures !ok ==> exists c, p :: (c, p) in edges && Reach(edges, p, c)
      decreases known - active
    {
      if key in done { return true; }
      if key in active { return false; }
      ReachRefl(edges, key);
      active := active + {key};
      var todo := Successors(edges, key);
      while todo != {}
        invariant todo <= Successors(edges, key)
        invariant Ordered() && active == old(active) + {key} && active !! done
        invariant Successors(edges, key) - todo <= done
        invariant old(ordered) <= ordered && old(done) <= done
        invariant forall x :: x in done ==> x in old(done) || Reach(edges, key, x)
        decreases todo
      {
        var parent :| parent in todo;
        assert (key, parent) in edges;
        ReachRefl(edges, parent);
        forall a | a in active
          ensures exists m :: (a, m) in edges && Reach(edges, m, parent)
        {
          if a != key {
            var m :| (a, m) in edges && Reach(edges, m, key);
            ReachEdge(edges, key, parent);
            ReachTrans(edges, m, key, parent);
          }
        }
        ghost var before := done;
        ok := Visit(parent);
        if !ok { return false; }
        forall x | x in done
          ensures x in old(done) || Reach(edges, key, x)
        {
          if x !in before { ReachCons(edges, key, parent, x); }
        }
        todo := todo - {parent};
      }
      forall p | (key, p) in edges
        ensures p in ordered
      {
        assert p in Successors(edges, key);
        assert p in Elems(ordered);
      }
      AppendParentsFirst(edges, ordered, key);
      active := active - {key};
      done := done + {key};
      ordered := ordered + [key];
      return true;
    }

    /** A visit that started from nothing has listed exactly the lineage. */
    lemma OrderedIsLineage(db: Db, artifact: Id)
      requires edges == db.edges && known == Ancestors(db, artifact) && Ordered() && artifact in done
      ensures Elems(ordered) == Ancestors(db, artifact)
    {
      forall edge | edge in edges && edge.0 in done
        ensures edge.1 in done
      {
        var i :| 0 <= i < |ordered| && ordered[i] == edge.0;
        assert edge == (ordered[i], edge.1);
        assert edge.1 in ordered[..i];
      }
      forall x | x in Ancestors(db, artifact)
        ensures x in done
      {
        ReachClosed(edges, done, artifact, x);
      }
    }
  }
}
