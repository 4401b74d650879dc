/** Every registry operation keeps the invariant and only extends the tables. */
module LineageSteps {
  import opened Prelude
  import opened Graphs
  import opened Lineage

  // ---------------------------------------------------------------- adding

  /** Content addressing: a node found under the id of some content has that content. */
  lemma SameIdSameContent(h: Digest, db: Db, payload: Payload, parents: set<Id>)
    requires Injective(h) && ContentAddressed(h, db) && h(Content(payload, parents)) in db.nodes
    ensures db.nodes[h(Content(payload, parents))].payload == payload
    ensures Parents(db, h(Content(payload, parents))) == parents
  {
    var id := h(Content(payload, parents));
    assert h(Content(db.nodes[id].payload, Parents(db, id))) == h(Content(payload, parents));
  }

  lemma AddKeeps(h: Digest, db: Db, payload: Payload, parents: set<Id>)
    requires Injective(h) && Inv(h, db) && Add(h, db, payload, parents).Ok? && !payload.Knowledge?
    requires payload.Artifact? ==> payload == Header(db, payload.kind, payload.body, parents)
    requires parents == {} <==> payload.Origin?
    requires forall p :: p in parents && p in db.nodes ==> !db.nodes[p].revoked
    ensures var (after, id) := Add(h, db, payload, parents).value;
            && Inv(h, after) && Extends(db, after)
            && id in after.nodes && after.nodes[id] == Row(payload, false) && Parents(after, id) == parents
  {
    var id := h(Content(payload, parents));
    if id in db.nodes {
      SameIdSameContent(h, db, payload, parents);
    } else {
      InsertedKeeps(h, db, payload, parents);
      InsertedExtends(db, id, payload, parents);
    }
  }

  ghost predicate SameGraph(db: Db, after: Db) {
    && after.edges == db.edges
    && after.nodes.Keys == db.nodes.Keys
    && forall id :: id in db.nodes ==> after.nodes[id].payload == db.nodes[id].payload
  }

  /** Neither revocation marks nor heads nor events enter the graph part of the invariant. */
  lemma SameGraphKeeps(h: Digest, db: Db, after: Db)
    requires SameGraph(db, after)
    requires EndpointsKnown(db) && WellFounded(db.edges) && ContentAddressed(h, db)
    requires HeadersExact(db) && RootsAreOrigins(db)
    ensures EndpointsKnown(after) && WellFounded(after.edges) && ContentAddressed(h, after)
    ensures HeadersExact(after) && RootsAreOrigins(after)
  {
    forall id | id in after.nodes
      ensures id == h(Content(after.nodes[id].payload, Parents(after, id)))
      ensures Parents(after, id) == {} <==> after.nodes[id].payload.Origin?
    {
      assert Parents(after, id) == Parents(db, id);
    }
    SameGraphHeaders(db, after);
  }

  lemma SameGraphHeaders(db: Db, after: Db)
    requires SameGraph(db, after) && HeadersExact(db)
    ensures HeadersExact(after)
  {
    forall id | id in after.nodes
      ensures HeaderExact(after, id)
    {
      assert HeaderExact(db, id);
      assert Ancestors(after, id) == Ancestors(db, id);
      assert Parents(after, id) == Parents(db, id);
      assert OriginsAmong(after, Ancestors(db, id)) == OriginsAmong(db, Ancestors(db, id));
      assert GenerationsAmong(after, Ancestors(db, id)) == GenerationsAmong(db, Ancestors(db, id));
    }
  }

  lemma SameGraphHeads(db: Db, after: Db)
    requires SameGraph(db, after) && after.heads == db.heads && HeadsKnown(db) && HeadsNewest(db)
    ensures HeadsKnown(after) && HeadsNewest(after)
  {
    forall id | id in after.nodes && after.nodes[id].payload.Knowledge?
      ensures after.nodes[id].payload.key in after.heads
      ensures after.heads[after.nodes[id].payload.key].node == id
              || after.nodes[id].payload.generation < after.heads[after.nodes[id].payload.key].generation
    {
      assert db.nodes[id].payload == after.nodes[id].payload;
    }
  }

  lemma LoggedKeeps(h: Digest, db: Db, event: Event)
    requires Inv(h, db)
    ensures Inv(h, Logged(db, event)) && Extends(db, Logged(db, event))
  {
    SameGraphKeeps(h, db, Logged(db, event));
  }

  lemma ValidIsLive(db: Db, id: Id, principal: string, now: int)
    requires IsValid(db, id, principal, now)
    ensures id in db.nodes && NodeAdmits(db, id, principal, now) && !db.nodes[id].revoked
  {
    ReachRefl(db.edges, id);
    assert id in Ancestors(db, id);
  }

  lemma AllValidAreLive(db: Db, ids: set<Id>, principal: string, now: int)
    requires forall id :: id in ids ==> IsValid(db, id, principal, now)
    ensures ids <= db.nodes.Keys && forall id :: id in ids ==> !db.nodes[id].revoked
  {
    forall id | id in ids
      ensures id in db.nodes && !db.nodes[id].revoked
    {
      ValidIsLive(db, id, principal, now);
    }
  }

  // ------------------------------------------------------------- publishing

  /** The next generation of a key was never stored before. */
  lemma PublishIsFresh(h: Digest, db: Db, key: string, semantic: Semantic, parents: set<Id>,
                       acl: set<string>, lifecycle: Option<Lifecycle>)
    requires Injective(h) && Inv(h, db)
    ensures h(Content(KnowledgePayload(db, key, semantic, acl, lifecycle), parents)) !in db.nodes
  {
    var payload := KnowledgePayload(db, key, semantic, acl, lifecycle);
    if h(Content(payload, parents)) in db.nodes {
      SameIdSameContent(h, db, payload, parents);
      assert false;
    }
  }

  /** A valid publication always succeeds, and its effect is one insertion and one head. */
  lemma PublishEffect(h: Digest, db: Db, now: int, key: string, semantic: Semantic, parents: set<Id>,
                      principal: string, acl: set<string>, lifecycle: Option<Lifecycle>)
    requires Injective(h) && Inv(h, db)
    requires parents != {} && WindowOrdered(lifecycle)
    requires forall p :: p in parents ==> IsValid(db, p, principal, now)
    ensures var payload := KnowledgePayload(db, key, semantic, acl, lifecycle);
            var id := h(Content(payload, parents));
            && id !in db.nodes && parents <= db.nodes.Keys
            && Publish(h, db, now, key, semantic, parents, principal, acl, lifecycle)
               == Ok((Logged(Inserted(db, id, payload, parents).(heads := db.heads[key := Head(payload.generation, id)]),
                             Published(id, key, payload.generation)), id))
  {
    PublishIsFresh(h, db, key, semantic, parents, acl, lifecycle);
    AllValidAreLive(db, parents, principal, now);
  }

  lemma PublishKeeps(h: Digest, db: Db, now: int, key: string, semantic: Semantic, parents: set<Id>,
                     principal: string, acl: set<string>, lifecycle: Option<Lifecycle>)
    requires Injective(h) && Inv(h, db)
    requires Publish(h, db, now, key, semantic, parents, principal, acl, lifecycle).Ok?
    ensures var (after, id) := Publish(h, db, now, key, semantic, parents, principal, acl, lifecycle).value;
            Inv(h, after) && Extends(db, after)
  {
    PublishEffect(h, db, now, key, semantic, parents, principal, acl, lifecycle);
    AllValidAreLive(db, parents, principal, now);
    var payload := KnowledgePayload(db, key, semantic, acl, lifecycle);
    var id := h(Content(payload, parents));
    NewGenerationKeeps(h, db, key, payload, parents);
    var moved := Inserted(db, id, payload, parents).(heads := db.heads[key := Head(payload.generation, id)]);
    LoggedKeeps(h, moved, Published(id, key, payload.generation));
    ExtendsTransitive(db, moved, Logged(moved, Published(id, key, payload.generation)));
  }

  lemma NewGenerationKeeps(h: Digest, db: Db, key: string, payload: Payload, parents: set<Id>)
    requires Inv(h, db) && h(Content(payload, parents)) !in db.nodes && parents <= db.nodes.Keys && parents != {}
    requires payload.Knowledge? && payload.key == key && payload.generation == NextGeneration(db, key)
    requires forall p :: p in parents ==> !db.nodes[p].revoked
    ensures var id := h(Content(payload, parents));
            var moved := Inserted(db, id, payload, parents).(heads := db.heads[key := Head(payload.generation, id)]);
            Inv(h, moved) && Extends(db, moved)
  {
    var id := h(Content(payload, parents));
    var inserted := Inserted(db, id, payload, parents);
    var moved := inserted.(heads := db.heads[key := Head(payload.generation, id)]);
    InsertedKeeps(h, db, payload, parents);
    InsertedExtends(db, id, payload, parents);
    SameGraphKeeps(h, inserted, moved);
    NewHeadKeeps(db, inserted, moved, key, id);
  }

  /** Moving the head of a key to a newly inserted later generation. */
  lemma NewHeadKeeps(db: Db, inserted: Db, moved: Db, key: string, id: Id)
    requires HeadsKnown(db) && HeadsNewest(db) && Extends(db, inserted)
    requires inserted.heads == db.heads && inserted.events == db.events
    requires inserted.nodes.Keys == db.nodes.Keys + {id} && id !in db.nodes
    requires var p := inserted.nodes[id].payload; p.Knowledge? && p.key == key && p.generation == NextGeneration(db, key)
    requires moved == inserted.(heads := db.heads[key := Head(NextGeneration(db, key), id)])
    ensures HeadsKnown(moved) && HeadsNewest(moved) && Extends(db, moved)
  {
    NewHeadExtends(db, inserted, moved, key, id);
    NewHeadNewest(db, inserted, moved, key, id);
  }

  lemma NewHeadExtends(db: Db, inserted: Db, moved: Db, key: string, id: Id)
    requires HeadsKnown(db) && NodesKept(db, inserted) && EdgesKept(db, inserted) && db.events <= inserted.events
    requires moved == inserted.(heads := db.heads[key := Head(NextGeneration(db, key), id)])
    ensures Extends(db, moved)
  {
    assert HeadsAdvance(db, moved);
  }

  lemma NewHeadNewest(db: Db, inserted: Db, moved: Db, key: string, id: Id)
    requires HeadsKnown(db) && HeadsNewest(db) && NodesKept(db, inserted)
    requires inserted.nodes.Keys == db.nodes.Keys + {id} && id !in db.nodes
    requires var p := inserted.nodes[id].payload; p.Knowledge? && p.key == key && p.generation == NextGeneration(db, key)
    requires moved.nodes == inserted.nodes && moved.heads == db.heads[key := Head(NextGeneration(db, key), id)]
    ensures HeadsKnown(moved) && HeadsNewest(moved)
  {
    forall k | k in moved.heads
      ensures moved.heads[k].node in moved.nodes
      ensures var p := moved.nodes[moved.heads[k].node].payload; p.Knowledge? && p.key == k && p.generation == moved.heads[k].generation
    {
      if k != key { assert db.heads[k].node in db.nodes; }
    }
    NewHeadIsNewest(db, inserted, moved, key, id);
  }

  lemma NewHeadIsNewest(db: Db, inserted: Db, moved: Db, key: string, id: Id)
    requires HeadsKnown(db) && HeadsNewest(db) && NodesKept(db, inserted) && inserted.nodes.Keys == db.nodes.Keys + {id}
    requires key in db.heads ==> db.heads[key].generation < NextGeneration(db, key)
    requires var p := inserted.nodes[id].payload; p.Knowledge? && p.key == key
    requires moved.nodes == inserted.nodes && moved.heads == db.heads[key := Head(NextGeneration(db, key), id)]
    ensures HeadsNewest(moved)
  {
    forall x | x in moved.nodes && moved.nodes[x].payload.Knowledge?
      ensures moved.nodes[x].payload.key in moved.heads
      ensures moved.heads[moved.nodes[x].payload.key].node == x
              || moved.nodes[x].payload.generation < moved.heads[moved.nodes[x].payload.key].generation
    {
      if x != id {
        assert x in db.nodes && db.nodes[x].payload == moved.nodes[x].payload;
      }
    }
  }

  // --------------------------------------------------- deriving, committing

  lemma DeriveKeeps(h: Digest, db: Db, now: int, kind: string, body: string, parents: set<Id>, principal: string)
    requires Injective(h) && Inv(h, db) && Derive(h, db, now, kind, body, parents, principal).Ok?
    ensures var (after, id) := Derive(h, db, now, kind, body, parents, principal).value;
            && Inv(h, after) && Extends(db, after)
            && id in after.nodes && Parents(after, id) == parents
            && after.nodes[id] == Row(Header(db, kind, body, parents), false)
  {
    AllValidAreLive(db, parents, principal, now);
    AddKeeps(h, db, Header(db, kind, body, parents), parents);
  }

  lemma CommitKeeps(h: Digest, db: Db, now: int, ids: set<Id>, principal: string, text: string)
    requires Injective(h) && Inv(h, db) && Commit(h, db, now, ids, principal, text).Ok?
    ensures var (after, answer) := Commit(h, db, now, ids, principal, text).value;
            && Inv(h, after) && Extends(db, after)
            && answer in after.nodes && Parents(after, answer) == ids
  {
    DeriveKeeps(h, db, now, "answer", text, ids, principal);
    var (derived, answer) := Derive(h, db, now, "answer", text, ids, principal).value;
    LoggedKeeps(h, derived, Committed(answer));
    ExtendsTransitive(db, derived, Logged(derived, Committed(answer)));
    assert Parents(Logged(derived, Committed(answer)), answer) == Parents(derived, answer);
  }

  // --------------------------------------------------------------- revoking

  /** Marking a set that contains every child of its members keeps the invariant. */
  lemma MarkedKeeps(h: Digest, db: Db, ids: set<Id>)
    requires Inv(h, db)
    requires forall edge :: edge in db.edges && edge.1 in ids ==> edge.0 in ids
    ensures Inv(h, MarkRevoked(db, ids)) && Extends(db, MarkRevoked(db, ids))
  {
    var marked := MarkRevoked(db, ids);
    MarkedExtends(db, ids);
    MarkedClosed(db, ids);
    SameGraphKeeps(h, db, marked);
    SameGraphHeads(db, marked);
  }

  lemma MarkedExtends(db: Db, ids: set<Id>)
    ensures SameGraph(db, MarkRevoked(db, ids)) && Extends(db, MarkRevoked(db, ids))
    ensures MarkRevoked(db, ids).heads == db.heads
  {
  }

  lemma MarkedClosed(db: Db, ids: set<Id>)
    requires RevokedClosed(db) && EndpointsKnown(db)
    requires forall edge :: edge in db.edges && edge.1 in ids ==> edge.0 in ids
    ensures RevokedClosed(MarkRevoked(db, ids))
  {
    var marked := MarkRevoked(db, ids);
    forall edge | edge in marked.edges && edge.0 in marked.nodes && edge.1 in marked.nodes && marked.nodes[edge.1].revoked
      ensures marked.nodes[edge.0].revoked
    {
      assert edge in db.edges;
    }
  }

  /** The revoked set stays closed because the closure follows every child. */
  lemma RevokeKeeps(h: Digest, db: Db, id: Id)
    requires Inv(h, db) && Revoke(db, id).Ok?
    ensures var (after, affected) := Revoke(db, id).value;
            && Inv(h, after) && Extends(db, after)
            && (forall x :: x in affected <==> x in db.nodes && id in Ancestors(db, x))
            && (forall x :: x in after.nodes ==> (after.nodes[x].revoked <==> db.nodes[x].revoked || x in affected))
  {
    var affected := Descendants(db, id);
    var marked := MarkRevoked(db, affected);
    forall edge | edge in db.edges && edge.1 in affected
      ensures edge.0 in affected
    {
      assert edge == (edge.0, edge.1);
      ReachCons(db.edges, edge.0, edge.1, id);
    }
    MarkedKeeps(h, db, affected);
    LoggedKeeps(h, marked, Revoked(id, affected));
    ExtendsTransitive(db, marked, Logged(marked, Revoked(id, affected)));
  }
}
