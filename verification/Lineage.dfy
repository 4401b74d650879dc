/** The lineage registry as a value: its tables, its operations as functions on
    the tables, and the invariant every operation keeps.

    A node id is the digest of the node's content, so the digest is a parameter
    that is only known to be injective. Each operation is one transaction: it
    yields the new tables, or an error and no new tables. */
module Lineage {
  import opened Prelude
  import opened Graphs

  type Id = string

  /** A typed relation of a semantic payload; either field may be missing. */
  datatype Relation = Relation(name: Option<string>, target: Option<string>)

  datatype Semantic = Semantic(body: string, relations: seq<Relation>)

  datatype Lifecycle = Lifecycle(
    validFrom: Option<int>, validUntil: Option<int>, supersedes: Option<Id>, other: string)

  datatype Generation = Generation(key: string, generation: nat)

  datatype Payload =
    | Origin(namespace: string, recordId: string, version: string, contentHash: string, acl: set<string>)
    | Knowledge(key: string, generation: nat, semantic: Semantic, acl: set<string>, lifecycle: Option<Lifecycle>)
    | Artifact(kind: string, body: string, originKeys: set<Id>, generations: map<Id, Generation>, parentKeys: set<Id>)

  /** What a node id is the digest of. */
  datatype Content = Content(payload: Payload, parents: set<Id>)

  type Digest = Content -> Id

  datatype Row = Row(payload: Payload, revoked: bool)

  datatype Head = Head(generation: nat, node: Id)

  datatype Event =
    | Published(node: Id, key: string, generation: nat)
    | Committed(answer: Id)
    | Revoked(root: Id, affected: set<Id>)
    | Adopted(artifact: Id, count: nat)
    | Recorded(action: string, detail: string)

  datatype Db = Db(
    nodes: map<Id, Row>, edges: set<(Id, Id)>, heads: map<string, Head>, events: seq<Event>)

  datatype Error = InvalidState | ValueError

  const EMPTY := Db(map[], {}, map[], [])

  const ARTIFACT_KINDS: set<string> :=
    {"lora", "model", "vector", "text", "jspace", "cache", "answer", "router",
     "embedding", "ranker", "speculator", "runtime", "policy", "quantization", "vision"}

  // ---------------------------------------------------------------- reading

  ghost predicate Injective(h: Digest) {
    forall c, d :: h(c) == h(d) ==> c == d
  }

  function Parents(db: Db, id: Id): set<Id> {
    Successors(db.edges, id)
  }

  ghost function Ancestors(db: Db, id: Id): set<Id> {
    set x | x in db.nodes && Reach(db.edges, id, x)
  }

  ghost function AncestorsOfAll(db: Db, ids: set<Id>): set<Id> {
    set x | x in db.nodes && exists p :: p in ids && Reach(db.edges, p, x)
  }

  /** The node and everything derived from it. */
  ghost function Descendants(db: Db, id: Id): set<Id> {
    set x | x in db.nodes && Reach(db.edges, x, id)
  }

  function Acl(p: Payload): set<string> {
    if p.Artifact? then {"*"} else p.acl
  }

  predicate AclAdmits(p: Payload, principal: string) {
    "*" in Acl(p) || principal in Acl(p)
  }

  predicate InWindow(p: Payload, now: int) {
    p.Knowledge? && p.lifecycle.Some? ==>
      && (p.lifecycle.value.validFrom.Some? ==> p.lifecycle.value.validFrom.value <= now)
      && (p.lifecycle.value.validUntil.Some? ==> now < p.lifecycle.value.validUntil.value)
  }

  predicate IsHead(db: Db, id: Id, key: string) {
    key in db.heads && db.heads[key].node == id
  }

  /** What the validity check asks of one ancestor. */
  predicate NodeAdmits(db: Db, id: Id, principal: string, now: int)
    requires id in db.nodes
  {
    var row := db.nodes[id];
    && !row.revoked
    && AclAdmits(row.payload, principal)
    && InWindow(row.payload, now)
    && (row.payload.Knowledge? ==> IsHead(db, id, row.payload.key))
  }

  ghost predicate IsValid(db: Db, id: Id, principal: string, now: int) {
    id in db.nodes && forall a :: a in Ancestors(db, id) ==> NodeAdmits(db, a, principal, now)
  }

  function OriginsAmong(db: Db, ids: set<Id>): set<Id> {
    set a | a in ids && a in db.nodes && db.nodes[a].payload.Origin?
  }

  function GenerationsAmong(db: Db, ids: set<Id>): map<Id, Generation> {
    map a | a in ids && a in db.nodes && db.nodes[a].payload.Knowledge? ::
      Generation(db.nodes[a].payload.key, db.nodes[a].payload.generation)
  }

  // ------------------------------------------------------------- operations

  /** Insert a node below its parents; an existing live node is returned as is. */
  function Add(h: Digest, db: Db, payload: Payload, parents: set<Id>): Result<(Db, Id), Error> {
    var id := h(Content(payload, parents));
    if id in db.nodes then
      if db.nodes[id].revoked then Err(InvalidState) else Ok((db, id))
    else if !(parents <= db.nodes.Keys) then Err(InvalidState)
    else Ok((Inserted(db, id, payload, parents), id))
  }

  function Inserted(db: Db, id: Id, payload: Payload, parents: set<Id>): Db {
    db.(nodes := db.nodes[id := Row(payload, false)],
        edges := db.edges + set p | p in parents :: (id, p))
  }

  function Logged(db: Db, event: Event): Db {
    db.(events := db.events + [event])
  }

  predicate WindowOrdered(lifecycle: Option<Lifecycle>) {
    lifecycle.Some? && lifecycle.value.validFrom.Some? && lifecycle.value.validUntil.Some? ==>
      lifecycle.value.validFrom.value < lifecycle.value.validUntil.value
  }

  function NextGeneration(db: Db, key: string): nat {
    if key in db.heads then db.heads[key].generation + 1 else 1
  }

  /** The payload a publication stores: the caller's semantic under the next
      generation, remembering the replaced head when a lifecycle is given. */
  function KnowledgePayload(db: Db, key: string, semantic: Semantic, acl: set<string>,
                            lifecycle: Option<Lifecycle>): Payload {
    var stored := if lifecycle.None? then None else
      Some(lifecycle.value.(supersedes := if key in db.heads then Some(db.heads[key].node) else None));
    Knowledge(key, NextGeneration(db, key), semantic, acl, stored)
  }

  ghost function Publish(h: Digest, db: Db, now: int, key: string, semantic: Semantic, parents: set<Id>,
                         principal: string, acl: set<string>, lifecycle: Option<Lifecycle>): Result<(Db, Id), Error> {
    if parents == {} then Err(InvalidState)
    else if !WindowOrdered(lifecycle) then Err(ValueError)
    else if exists p :: p in parents && !IsValid(db, p, principal, now) then Err(InvalidState)
    else
      var payload := KnowledgePayload(db, key, semantic, acl, lifecycle);
      match Add(h, db, payload, parents)
      case Err(e) => Err(e)
      case Ok((added, id)) =>
        var moved := added.(heads := added.heads[key := Head(payload.generation, id)]);
        Ok((Logged(moved, Published(id, key, payload.generation)), id))
  }

  /** The header of a derived artifact, read off the parents' ancestors. */
  ghost function Header(db: Db, kind: string, body: string, parents: set<Id>): Payload {
    var above := AncestorsOfAll(db, parents);
    Artifact(kind, body, OriginsAmong(db, above), GenerationsAmong(db, above), parents)
  }

  ghost function Derive(h: Digest, db: Db, now: int, kind: string, body: string, parents: set<Id>,
                        principal: string): Result<(Db, Id), Error> {
    if kind !in ARTIFACT_KINDS then Err(ValueError)
    else if parents == {} then Err(InvalidState)
    else if exists p :: p in parents && !IsValid(db, p, principal, now) then Err(InvalidState)
    else
      var header := Header(db, kind, body, parents);
      if header.originKeys == {} || header.generations.Keys == {} then Err(InvalidState)
      else Add(h, db, header, parents)
  }

  /** A snapshot is accepted when it names something and all of it is valid. */
  ghost predicate Accepted(db: Db, ids: set<Id>, principal: string, now: int) {
    ids != {} && forall id :: id in ids ==> IsValid(db, id, principal, now)
  }

  ghost function Commit(h: Digest, db: Db, now: int, ids: set<Id>, principal: string,
                        text: string): Result<(Db, Id), Error> {
    if exists id :: id in ids && !IsValid(db, id, principal, now) then Err(InvalidState)
    else
      match Derive(h, db, now, "answer", text, ids, principal)
      case Err(e) => Err(e)
      case Ok((derived, answer)) => Ok((Logged(derived, Committed(answer)), answer))
  }

  function MarkRevoked(db: Db, ids: set<Id>): Db {
    db.(nodes := map id | id in db.nodes :: if id in ids then db.nodes[id].(revoked := true) else db.nodes[id])
  }

  ghost function Revoke(db: Db, id: Id): Result<(Db, set<Id>), Error> {
    if id !in db.nodes then Err(InvalidState)
    else
      var affected := Descendants(db, id);
      Ok((Logged(MarkRevoked(db, affected), Revoked(id, affected)), affected))
  }

  // -------------------------------------------------------------- invariant

  ghost predicate EndpointsKnown(db: Db) {
    forall edge :: edge in db.edges ==> edge.0 in db.nodes && edge.1 in db.nodes
  }

  ghost predicate ContentAddressed(h: Digest, db: Db) {
    forall id :: id in db.nodes ==> id == h(Content(db.nodes[id].payload, Parents(db, id)))
  }

  ghost predicate RevokedClosed(db: Db) {
    forall edge :: edge in db.edges && edge.0 in db.nodes && edge.1 in db.nodes && db.nodes[edge.1].revoked ==>
      db.nodes[edge.0].revoked
  }

  ghost predicate HeaderExact(db: Db, id: Id)
    requires id in db.nodes
  {
    var p := db.nodes[id].payload;
    p.Artifact? ==>
      && p.originKeys == OriginsAmong(db, Ancestors(db, id))
      && p.generations == GenerationsAmong(db, Ancestors(db, id))
      && p.parentKeys == Parents(db, id)
  }

  ghost predicate HeadersExact(db: Db) {
    forall id :: id in db.nodes ==> HeaderExact(db, id)
  }

  ghost predicate HeadsKnown(db: Db) {
    forall key :: key in db.heads ==>
      && db.heads[key].node in db.nodes
      && db.nodes[db.heads[key].node].payload.Knowledge?
      && db.nodes[db.heads[key].node].payload.key == key
      && db.nodes[db.heads[key].node].payload.generation == db.heads[key].generation
  }

  /** Every knowledge node is the head of its key or strictly older than it. */
  ghost predicate HeadsNewest(db: Db) {
    forall id :: id in db.nodes && db.nodes[id].payload.Knowledge? ==>
      && db.nodes[id].payload.key in db.heads
      && (db.heads[db.nodes[id].payload.key].node == id
          || db.nodes[id].payload.generation < db.heads[db.nodes[id].payload.key].generation)
  }

  /** Only an origin has no parents. */
  ghost predicate RootsAreOrigins(db: Db) {
    forall id :: id in db.nodes ==> (Parents(db, id) == {} <==> db.nodes[id].payload.Origin?)
  }

  ghost predicate Inv(h: Digest, db: Db) {
    && EndpointsKnown(db)
    && WellFounded(db.edges)
    && ContentAddressed(h, db)
    && RevokedClosed(db)
    && HeadersExact(db)
    && HeadsKnown(db)
    && HeadsNewest(db)
    && RootsAreOrigins(db)
  }

  ghost predicate NodesKept(db: Db, later: Db) {
    forall id :: id in db.nodes ==>
      && id in later.nodes
      && later.nodes[id].payload == db.nodes[id].payload
      && (db.nodes[id].revoked ==> later.nodes[id].revoked)
  }

  ghost predicate EdgesKept(db: Db, later: Db) {
    && db.edges <= later.edges
    && forall edge :: edge in later.edges && edge.0 in db.nodes ==> edge in db.edges
  }

  ghost predicate HeadsAdvance(db: Db, later: Db) {
    forall key :: key in db.heads ==>
      && key in later.heads
      && (later.heads[key] == db.heads[key] || db.heads[key].generation < later.heads[key].generation)
  }

  /** How the tables may change over any stretch of history: nodes keep their
      content and parents, revocation is never undone, and a head only moves
      to a later generation. */
  ghost predicate Extends(db: Db, later: Db) {
    NodesKept(db, later) && EdgesKept(db, later) && HeadsAdvance(db, later) && db.events <= later.events
  }

  // ------------------------------------------------------- facts on extension

  lemma ExtendsTransitive(a: Db, b: Db, c: Db)
    requires Extends(a, b) && Extends(b, c)
    ensures Extends(a, c)
  {
  }

  /** Ancestors of an existing node never change. */
  lemma ExtendsKeepsAncestors(db: Db, later: Db, id: Id)
    requires EndpointsKnown(db) && Extends(db, later) && id in db.nodes
    ensures Ancestors(later, id) == Ancestors(db, id)
  {
    assert Closed(db.edges, db.nodes.Keys);
    assert Closed(later.edges, db.nodes.Keys);
    forall x
      ensures x in Ancestors(later, id) <==> x in Ancestors(db, id)
    {
      ReachWithin(db.edges, later.edges, db.nodes.Keys, id, x);
      if Reach(later.edges, id, x) {
        ReachClosed(later.edges, db.nodes.Keys, id, x);
      }
    }
  }

  lemma ExtendsKeepsParents(db: Db, later: Db, id: Id)
    requires Extends(db, later) && id in db.nodes
    ensures Parents(later, id) == Parents(db, id)
  {
    forall p | p in Parents(later, id)
      ensures p in Parents(db, id)
    {
      assert (id, p) in later.edges;
    }
    forall p | p in Parents(db, id)
      ensures p in Parents(later, id)
    {
      assert (id, p) in db.edges;
    }
  }

  /** A node is its own ancestor, and its other ancestors are those of its parents. */
  lemma AncestorsUnfold(db: Db, id: Id)
    requires EndpointsKnown(db) && id in db.nodes
    ensures Ancestors(db, id) == {id} + AncestorsOfAll(db, Parents(db, id))
  {
    ReachRefl(db.edges, id);
    forall x | x in Ancestors(db, id) && x != id
      ensures x in AncestorsOfAll(db, Parents(db, id))
    {
      var m := FirstStep(db.edges, id, x);
      assert m in Parents(db, id);
    }
    forall x | x in AncestorsOfAll(db, Parents(db, id))
      ensures x in Ancestors(db, id)
    {
      var p :| p in Parents(db, id) && Reach(db.edges, p, x);
      assert (id, p) in db.edges;
      ReachCons(db.edges, id, p, x);
    }
  }

  // --------------------------------------------- inserting one node keeps Inv

  lemma InsertedExtends(db: Db, id: Id, payload: Payload, parents: set<Id>)
    requires EndpointsKnown(db) && id !in db.nodes && parents <= db.nodes.Keys
    ensures Extends(db, Inserted(db, id, payload, parents))
    ensures EndpointsKnown(Inserted(db, id, payload, parents))
    ensures Parents(Inserted(db, id, payload, parents), id) == parents
  {
    var after := Inserted(db, id, payload, parents);
    forall p | p in Parents(after, id)
      ensures p in parents
    {
      assert (id, p) in after.edges;
      if (id, p) in db.edges { assert false; }
    }
    forall p | p in parents
      ensures p in Parents(after, id)
    {
      assert (id, p) in after.edges;
    }
  }

  lemma InsertedWellFounded(db: Db, id: Id, payload: Payload, parents: set<Id>)
    requires EndpointsKnown(db) && WellFounded(db.edges) && id !in db.nodes && parents <= db.nodes.Keys
    ensures WellFounded(Inserted(db, id, payload, parents).edges)
  {
    var rank: map<Id, nat> :| Ranked(db.edges, rank);
    var n := RankBound(rank);
    var total: map<Id, nat> := map x | x in db.nodes.Keys + {id} :: if x == id then n + 1 else if x in rank then rank[x] else 0;
    var edges := Inserted(db, id, payload, parents).edges;
    forall edge | edge in edges
      ensures edge.0 in total && edge.1 in total && total[edge.1] < total[edge.0]
    {
      if edge in db.edges {
        assert edge.0 in db.nodes && edge.1 in db.nodes;
      }
    }
    assert Ranked(edges, total);
  }

  /** Ancestors above the parents are the same before and after the insertion. */
  lemma InsertedAncestors(db: Db, id: Id, payload: Payload, parents: set<Id>)
    requires EndpointsKnown(db) && id !in db.nodes && parents <= db.nodes.Keys
    ensures var after := Inserted(db, id, payload, parents);
            && Ancestors(after, id) == {id} + AncestorsOfAll(db, parents)
            && forall a :: a in db.nodes ==> Ancestors(after, a) == Ancestors(db, a)
  {
    var after := Inserted(db, id, payload, parents);
    InsertedExtends(db, id, payload, parents);
    AncestorsUnfold(after, id);
    forall a | a in db.nodes
      ensures Ancestors(after, a) == Ancestors(db, a)
    {
      ExtendsKeepsAncestors(db, after, a);
    }
    forall x
      ensures x in AncestorsOfAll(after, parents) <==> x in AncestorsOfAll(db, parents)
    {
      if x in AncestorsOfAll(after, parents) {
        var p :| p in parents && Reach(after.edges, p, x);
        assert x in Ancestors(after, p);
        assert x in Ancestors(db, p);
      }
      if x in AncestorsOfAll(db, parents) {
        var p :| p in parents && Reach(db.edges, p, x);
        assert x in Ancestors(db, p);
        assert x in Ancestors(after, p);
      }
    }
  }

  lemma InsertedHeaders(db: Db, id: Id, payload: Payload, parents: set<Id>)
    requires EndpointsKnown(db) && HeadersExact(db) && id !in db.nodes && parents <= db.nodes.Keys
    requires payload.Artifact? ==> payload == Header(db, payload.kind, payload.body, parents)
    ensures HeadersExact(Inserted(db, id, payload, parents))
  {
    var after := Inserted(db, id, payload, parents);
    InsertedExtends(db, id, payload, parents);
    InsertedAncestors(db, id, payload, parents);
    forall a | a in after.nodes
      ensures HeaderExact(after, a)
    {
      if a == id {
        if payload.Artifact? {
          var above := AncestorsOfAll(db, parents);
          assert OriginsAmong(after, {id} + above) == OriginsAmong(db, above);
          assert GenerationsAmong(after, {id} + above) == GenerationsAmong(db, above);
        }
      } else {
        ExtendsKeepsParents(db, after, a);
        assert HeaderExact(db, a);
        assert OriginsAmong(after, Ancestors(db, a)) == OriginsAmong(db, Ancestors(db, a));
        assert GenerationsAmong(after, Ancestors(db, a)) == GenerationsAmong(db, Ancestors(db, a));
      }
    }
  }

  /** What inserting a node keeps of the invariant, heads aside. */
  lemma InsertedKeeps(h: Digest, db: Db, payload: Payload, parents: set<Id>)
    requires Inv(h, db) && h(Content(payload, parents)) !in db.nodes && parents <= db.nodes.Keys
    requires payload.Artifact? ==> payload == Header(db, payload.kind, payload.body, parents)
    requires parents == {} <==> payload.Origin?
    requires forall p :: p in parents ==> !db.nodes[p].revoked
    ensures var after := Inserted(db, h(Content(payload, parents)), payload, parents);
            && EndpointsKnown(after) && WellFounded(after.edges) && ContentAddressed(h, after)
            && RevokedClosed(after) && HeadersExact(after) && RootsAreOrigins(after) && HeadsKnown(after)
            && (!payload.Knowledge? ==> HeadsNewest(after))
  {
    var id := h(Content(payload, parents));
    var after := Inserted(db, id, payload, parents);
    InsertedExtends(db, id, payload, parents);
    InsertedWellFounded(db, id, payload, parents);
    InsertedHeaders(db, id, payload, parents);
    forall a | a in after.nodes
      ensures a == h(Content(after.nodes[a].payload, Parents(after, a)))
      ensures Parents(after, a) == {} <==> after.nodes[a].payload.Origin?
    {
      if a != id {
        ExtendsKeepsParents(db, after, a);
        assert a == h(Content(db.nodes[a].payload, Parents(db, a)));
      }
    }
  }
}
