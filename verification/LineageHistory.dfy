/** Safety of the lineage registry over every history of calls. */
module LineageHistory {
  import opened Prelude
  import opened Graphs
  import opened Lineage
  import opened LineageSteps
  import opened Adoption

  datatype Call =
    | OriginCall(namespace: string, recordId: string, version: string, contentHash: string, acl: set<string>)
    | PublishCall(now: int, key: string, semantic: Semantic, parents: set<Id>, principal: string,
                  acl: set<string>, lifecycle: Option<Lifecycle>)
    | ArtifactCall(now: int, kind: string, body: string, parents: set<Id>, principal: string)
    | CommitCall(now: int, artifacts: set<Id>, principal: string, text: string)
    | RevokeCall(id: Id)
    | AdoptCall(source: Db, artifact: Id, principal: string, sourceNow: int, now: int)
    | RecordCall(action: string, detail: string)

  /** The tables after one call; a call that raises leaves them as they were. */
  ghost function Apply(h: Digest, db: Db, call: Call): Db {
    match call
    case OriginCall(namespace, recordId, version, contentHash, acl) =>
      var r := Add(h, db, Origin(namespace, recordId, version, contentHash, acl), {});
      if r.Ok? then r.value.0 else db
    case PublishCall(now, key, semantic, parents, principal, acl, lifecycle) =>
      var r := Publish(h, db, now, key, semantic, parents, principal, acl, lifecycle);
      if r.Ok? then r.value.0 else db
    case ArtifactCall(now, kind, body, parents, principal) =>
      var r := Derive(h, db, now, kind, body, parents, principal);
      if r.Ok? then r.value.0 else db
    case CommitCall(now, artifacts, principal, text) =>
      var r := Commit(h, db, now, artifacts, principal, text);
      if r.Ok? then r.value.0 else db
    case RevokeCall(id) =>
      var r := Revoke(db, id);
      if r.Ok? then r.value.0 else db
    case AdoptCall(source, artifact, principal, sourceNow, now) =>
      var r := Adopt(h, source, db, artifact, principal, sourceNow, now);
      if r.Ok? then r.value else db
    case RecordCall(action, detail) => Logged(db, Recorded(action, detail))
  }

  /** A lineage may only be adopted from something that is itself a registry. */
  ghost predicate FromRegistries(h: Digest, calls: seq<Call>) {
    forall i :: 0 <= i < |calls| && calls[i].AdoptCall? ==> Inv(h, calls[i].source)
  }

  ghost function Run(h: Digest, db: Db, calls: seq<Call>): Db
    decreases |calls|
  {
    if calls == [] then db else Run(h, Apply(h, db, calls[0]), calls[1..])
  }

  lemma ApplyKeeps(h: Digest, db: Db, call: Call)
    requires Injective(h) && Inv(h, db) && (call.AdoptCall? ==> Inv(h, call.source))
    ensures Inv(h, Apply(h, db, call)) && Extends(db, Apply(h, db, call))
  {
    match call
    case OriginCall(namespace, recordId, version, contentHash, acl) =>
      var payload := Origin(namespace, recordId, version, contentHash, acl);
      if Add(h, db, payload, {}).Ok? { AddKeeps(h, db, payload, {}); }
    case PublishCall(now, key, semantic, parents, principal, acl, lifecycle) =>
      if Publish(h, db, now, key, semantic, parents, principal, acl, lifecycle).Ok? {
        PublishKeeps(h, db, now, key, semantic, parents, principal, acl, lifecycle);
      }
    case ArtifactCall(now, kind, body, parents, principal) =>
      if Derive(h, db, now, kind, body, parents, principal).Ok? {
        DeriveKeeps(h, db, now, kind, body, parents, principal);
      }
    case CommitCall(now, artifacts, principal, text) =>
      if Commit(h, db, now, artifacts, principal, text).Ok? {
        CommitKeeps(h, db, now, artifacts, principal, text);
      }
    case RevokeCall(id) =>
      if Revoke(db, id).Ok? { RevokeKeeps(h, db, id); }
    case AdoptCall(source, artifact, principal, sourceNow, now) =>
      if Adopt(h, source, db, artifact, principal, sourceNow, now).Ok? {
        AdoptKeeps(h, source, db, artifact, principal, sourceNow, now);
      }
    case RecordCall(action, detail) =>
      LoggedKeeps(h, db, Recorded(action, detail));
  }

  /** The invariant holds along every history, and histories only extend the tables. */
  lemma {:induction false} RunKeeps(h: Digest, db: Db, calls: seq<Call>)
    requires Injective(h) && Inv(h, db) && FromRegistries(h, calls)
    ensures Inv(h, Run(h, db, calls)) && Extends(db, Run(h, db, calls))
    decreases |calls|
  {
    if calls != [] {
      var next := Apply(h, db, calls[0]);
      ApplyKeeps(h, db, calls[0]);
      RunKeeps(h, next, calls[1..]);
      ExtendsTransitive(db, next, Run(h, next, calls[1..]));
    }
  }

  lemma EmptyInv(h: Digest)
    ensures Inv(h, EMPTY)
  {
    assert Ranked(EMPTY.edges, map[]);
  }

  /** In every state reached from the empty registry: no node is its own proper
      ancestor, a derived node of a revoked one is revoked, and every artifact
      header names exactly the origins and generations above it. */
  lemma ReachableStates(h: Digest, calls: seq<Call>)
    requires Injective(h) && FromRegistries(h, calls)
    ensures var db := Run(h, EMPTY, calls);
            && Inv(h, db)
            && (forall c, p :: (c, p) in db.edges ==> c !in Ancestors(db, p))
            && (forall c, a :: c in db.nodes && a in Ancestors(db, c) && db.nodes[a].revoked ==> db.nodes[c].revoked)
            && (forall id :: id in db.nodes ==> HeaderExact(db, id))
  {
    EmptyInv(h);
    RunKeeps(h, EMPTY, calls);
    var db := Run(h, EMPTY, calls);
    forall c, p | (c, p) in db.edges
      ensures c !in Ancestors(db, p)
    {
      NoCycle(db.edges, c, p);
    }
    forall c, a | c in db.nodes && a in Ancestors(db, c) && db.nodes[a].revoked
      ensures db.nodes[c].revoked
    {
      RevokedAncestorRevokes(db, c, a);
    }
  }

  lemma RevokedAncestorRevokes(db: Db, c: Id, a: Id)
    requires EndpointsKnown(db) && RevokedClosed(db) && c in db.nodes && a in Ancestors(db, c) && db.nodes[a].revoked
    ensures db.nodes[c].revoked
  {
    var live := set x | x in db.nodes && !db.nodes[x].revoked;
    if c in live {
      ReachClosed(db.edges, live, c, a);
    }
  }

  // -------------------------------------------------------------- permanence

  /** Some ancestor of some named node is revoked or superseded. */
  ghost predicate Doomed(db: Db, ids: set<Id>) {
    exists id, a :: id in ids && id in db.nodes && a in Ancestors(db, id) && DeadNode(db, a)
  }

  ghost predicate DeadNode(db: Db, a: Id)
    requires a in db.nodes
  {
    db.nodes[a].revoked || (db.nodes[a].payload.Knowledge? && !IsHead(db, a, db.nodes[a].payload.key))
  }

  lemma DeadStaysDead(h: Digest, db: Db, later: Db, a: Id)
    requires Inv(h, db) && Inv(h, later) && Extends(db, later) && a in db.nodes && DeadNode(db, a)
    ensures a in later.nodes && DeadNode(later, a)
  {
    if !db.nodes[a].revoked {
      var key := db.nodes[a].payload.key;
      assert db.nodes[a].payload.generation < db.heads[key].generation <= later.heads[key].generation;
      assert later.nodes[a].payload == db.nodes[a].payload;
      assert later.heads[key].node != a;
    }
  }

  lemma DoomedStaysDoomed(h: Digest, db: Db, later: Db, ids: set<Id>)
    requires Inv(h, db) && Inv(h, later) && Extends(db, later) && Doomed(db, ids)
    ensures Doomed(later, ids)
  {
    var id, a :| id in ids && id in db.nodes && a in Ancestors(db, id) && DeadNode(db, a);
    DeadStaysDead(h, db, later, a);
    ExtendsKeepsAncestors(db, later, id);
    assert id in later.nodes && a in Ancestors(later, id);
  }

  lemma DoomedNeverAccepted(db: Db, ids: set<Id>, principal: string, now: int)
    requires Doomed(db, ids)
    ensures !Accepted(db, ids, principal, now)
    ensures exists id :: id in ids && !IsValid(db, id, principal, now)
  {
    var id, a :| id in ids && id in db.nodes && a in Ancestors(db, id) && DeadNode(db, a);
    assert !NodeAdmits(db, a, principal, now);
    assert !IsValid(db, id, principal, now);
  }

  /** Once an ancestor of a snapshot is revoked or superseded, no later commit
      of that snapshot succeeds: whatever happens in between, whoever commits,
      and whenever. */
  lemma InvalidityIsPermanent(h: Digest, db: Db, calls: seq<Call>, ids: set<Id>, principal: string, now: int, text: string)
    requires Injective(h) && Inv(h, db) && FromRegistries(h, calls) && Doomed(db, ids)
    ensures Commit(h, Run(h, db, calls), now, ids, principal, text).Err?
    ensures !Accepted(Run(h, db, calls), ids, principal, now)
  {
    RunKeeps(h, db, calls);
    DoomedStaysDoomed(h, db, Run(h, db, calls), ids);
    DoomedNeverAccepted(Run(h, db, calls), ids, principal, now);
  }

  /** A committed answer is in the closure of any later revocation of anything
      it was derived from. */
  lemma CommittedAnswerIsRevocable(h: Digest, db: Db, now: int, ids: set<Id>, principal: string, text: string,
                                   calls: seq<Call>, target: Id)
    requires Injective(h) && Inv(h, db) && FromRegistries(h, calls)
    requires Commit(h, db, now, ids, principal, text).Ok?
    requires var (after, answer) := Commit(h, db, now, ids, principal, text).value;
             target in Ancestors(after, answer)
    ensures var (after, answer) := Commit(h, db, now, ids, principal, text).value;
            var revoked := Revoke(Run(h, after, calls), target);
            revoked.Ok? && answer in revoked.value.1
  {
    CommitKeeps(h, db, now, ids, principal, text);
    var (after, answer) := Commit(h, db, now, ids, principal, text).value;
    RunKeeps(h, after, calls);
    ExtendsKeepsAncestors(after, Run(h, after, calls), answer);
    RevokeKeeps(h, Run(h, after, calls), target);
  }

  /** The answer descends from every snapshot member and from all their ancestors. */
  lemma AnswerAncestry(h: Digest, db: Db, now: int, ids: set<Id>, principal: string, text: string)
    requires Injective(h) && Inv(h, db) && Commit(h, db, now, ids, principal, text).Ok?
    ensures var (after, answer) := Commit(h, db, now, ids, principal, text).value;
            Ancestors(after, answer) == {answer} + AncestorsOfAll(db, ids)
  {
    CommitKeeps(h, db, now, ids, principal, text);
    var (after, answer) := Commit(h, db, now, ids, principal, text).value;
    AncestorsUnfold(after, answer);
    AllValidAreLive(db, ids, principal, now);
    ExtendsKeepsAncestorsOfAll(db, after, ids);
  }

  lemma ExtendsKeepsAncestorsOfAll(db: Db, later: Db, ids: set<Id>)
    requires EndpointsKnown(db) && Extends(db, later) && ids <= db.nodes.Keys
    ensures AncestorsOfAll(later, ids) == AncestorsOfAll(db, ids)
  {
    forall x
      ensures x in AncestorsOfAll(later, ids) <==> x in AncestorsOfAll(db, ids)
    {
      if x in AncestorsOfAll(later, ids) {
        var p :| p in ids && Reach(later.edges, p, x);
        ExtendsKeepsAncestors(db, later, p);
        assert x in Ancestors(later, p);
        assert x in Ancestors(db, p);
      }
      if x in AncestorsOfAll(db, ids) {
        var p :| p in ids && Reach(db.edges, p, x);
        ExtendsKeepsAncestors(db, later, p);
        assert x in Ancestors(db, p);
        assert x in Ancestors(later, p);
      }
    }
  }

  // ------------------------------------------------- consistency of snapshots

  /** An accepted snapshot never mixes two generations of one key. */
  lemma NoMixedGenerations(db: Db, ids: set<Id>, principal: string, now: int, a: Id, b: Id)
    requires Accepted(db, ids, principal, now)
    requires a in AncestorsOfAll(db, ids) && b in AncestorsOfAll(db, ids)
    requires db.nodes[a].payload.Knowledge? && db.nodes[b].payload.Knowledge?
    requires db.nodes[a].payload.key == db.nodes[b].payload.key
    ensures a == b
  {
    var p :| p in ids && Reach(db.edges, p, a);
    var q :| q in ids && Reach(db.edges, q, b);
    assert IsValid(db, p, principal, now) && a in Ancestors(db, p);
    assert IsValid(db, q, principal, now) && b in Ancestors(db, q);
    assert NodeAdmits(db, a, principal, now) && NodeAdmits(db, b, principal, now);
  }

  /** A revocation invalidates the nodes derived from its target and no others. */
  lemma RevocationIsExact(h: Digest, db: Db, target: Id, id: Id, principal: string, now: int)
    requires Inv(h, db) && target in db.nodes && id in db.nodes
    ensures IsValid(Revoke(db, target).value.0, id, principal, now) <==>
            IsValid(db, id, principal, now) && target !in Ancestors(db, id)
  {
    RevokeKeeps(h, db, target);
    var (after, affected) := Revoke(db, target).value;
    ExtendsKeepsAncestors(db, after, id);
    if target in Ancestors(db, id) {
      assert after.nodes[target].revoked by { ReachRefl(db.edges, target); }
      assert !NodeAdmits(after, target, principal, now);
    } else {
      forall a | a in Ancestors(db, id)
        ensures NodeAdmits(after, a, principal, now) <==> NodeAdmits(db, a, principal, now)
      {
        if a in affected { ReachTrans(db.edges, id, a, target); }
      }
    }
  }

  /** Of the nodes already there, a publication changes the standing of the replaced head only. */
  lemma SupersededNode(db: Db, after: Db, key: string, added: Id, a: Id, reader: string, at: int)
    requires HeadsKnown(db) && HeadsNewest(db) && a in db.nodes && added !in db.nodes
    requires a in after.nodes && after.nodes[a] == db.nodes[a]
    requires after.heads == db.heads[key := Head(NextGeneration(db, key), added)]
    ensures NodeAdmits(after, a, reader, at) <==>
            NodeAdmits(db, a, reader, at) && !(key in db.heads && db.heads[key].node == a)
  {
  }

  /** A publication invalidates the nodes above the replaced head and no others. */
  lemma SupersessionIsExact(h: Digest, db: Db, now: int, key: string, semantic: Semantic, parents: set<Id>,
                            principal: string, acl: set<string>, lifecycle: Option<Lifecycle>, id: Id, reader: string, at: int)
    requires Injective(h) && Inv(h, db) && id in db.nodes
    requires Publish(h, db, now, key, semantic, parents, principal, acl, lifecycle).Ok?
    ensures var after := Publish(h, db, now, key, semantic, parents, principal, acl, lifecycle).value.0;
            IsValid(after, id, reader, at) <==>
            IsValid(db, id, reader, at) && (key in db.heads ==> db.heads[key].node !in Ancestors(db, id))
  {
    var (after, added) := Publish(h, db, now, key, semantic, parents, principal, acl, lifecycle).value;
    PublishedTables(h, db, now, key, semantic, parents, principal, acl, lifecycle);
    ExtendsKeepsAncestors(db, after, id);
    SupersededLineage(db, after, key, added, id, reader, at);
  }

  lemma PublishedTables(h: Digest, db: Db, now: int, key: string, semantic: Semantic, parents: set<Id>,
                        principal: string, acl: set<string>, lifecycle: Option<Lifecycle>)
    requires Injective(h) && Inv(h, db)
    requires Publish(h, db, now, key, semantic, parents, principal, acl, lifecycle).Ok?
    ensures var (after, added) := Publish(h, db, now, key, semantic, parents, principal, acl, lifecycle).value;
            && added !in db.nodes && Extends(db, after)
            && after.heads == db.heads[key := Head(NextGeneration(db, key), added)]
            && forall a :: a in db.nodes ==> a in after.nodes && after.nodes[a] == db.nodes[a]
  {
    PublishKeeps(h, db, now, key, semantic, parents, principal, acl, lifecycle);
    PublishEffect(h, db, now, key, semantic, parents, principal, acl, lifecycle);
  }

  lemma SupersededLineage(db: Db, after: Db, key: string, added: Id, id: Id, reader: string, at: int)
    requires HeadsKnown(db) && HeadsNewest(db) && added !in db.nodes
    requires forall a :: a in db.nodes ==> a in after.nodes && after.nodes[a] == db.nodes[a]
    requires after.heads == db.heads[key := Head(NextGeneration(db, key), added)]
    requires id in db.nodes && Ancestors(after, id) == Ancestors(db, id)
    ensures IsValid(after, id, reader, at) <==>
            IsValid(db, id, reader, at) && (key in db.heads ==> db.heads[key].node !in Ancestors(db, id))
  {
    forall a | a in Ancestors(db, id)
      ensures NodeAdmits(after, a, reader, at) <==>
              NodeAdmits(db, a, reader, at) && !(key in db.heads && db.heads[key].node == a)
    {
      SupersededNode(db, after, key, added, a, reader, at);
    }
  }

  /** A node just published is valid for its publisher exactly when no parent
      was derived from the head it replaces and its own access list and time
      window admit the publisher. */
  lemma PublishedNodeValidIff(h: Digest, db: Db, now: int, key: string, semantic: Semantic, parents: set<Id>,
                              principal: string, acl: set<string>, lifecycle: Option<Lifecycle>)
    requires Injective(h) && Inv(h, db)
    requires Publish(h, db, now, key, semantic, parents, principal, acl, lifecycle).Ok?
    ensures var (after, id) := Publish(h, db, now, key, semantic, parents, principal, acl, lifecycle).value;
            IsValid(after, id, principal, now) <==>
            && (key in db.heads ==> db.heads[key].node !in AncestorsOfAll(db, parents))
            && ("*" in acl || principal in acl)
            && InWindow(KnowledgePayload(db, key, semantic, acl, lifecycle), now)
  {
    PublishEffect(h, db, now, key, semantic, parents, principal, acl, lifecycle);
    var (after, id) := Publish(h, db, now, key, semantic, parents, principal, acl, lifecycle).value;
    var payload := KnowledgePayload(db, key, semantic, acl, lifecycle);
    InsertedAncestors(db, id, payload, parents);
    assert Ancestors(after, id) == Ancestors(Inserted(db, id, payload, parents), id);
    NewNodeValidIff(db, after, key, id, parents, principal, now);
  }

  lemma NewNodeValidIff(db: Db, after: Db, key: string, id: Id, parents: set<Id>, principal: string, now: int)
    requires HeadsKnown(db) && HeadsNewest(db) && id !in db.nodes
    requires forall a :: a in db.nodes ==> a in after.nodes && after.nodes[a] == db.nodes[a]
    requires after.heads == db.heads[key := Head(NextGeneration(db, key), id)]
    requires id in after.nodes && !after.nodes[id].revoked
    requires after.nodes[id].payload.Knowledge? && after.nodes[id].payload.key == key
    requires Ancestors(after, id) == {id} + AncestorsOfAll(db, parents)
    requires forall p :: p in parents ==> IsValid(db, p, principal, now)
    ensures IsValid(after, id, principal, now) <==>
            && (key in db.heads ==> db.heads[key].node !in AncestorsOfAll(db, parents))
            && AclAdmits(after.nodes[id].payload, principal)
            && InWindow(after.nodes[id].payload, now)
  {
    forall a | a in AncestorsOfAll(db, parents)
      ensures NodeAdmits(after, a, principal, now) <==> !(key in db.heads && db.heads[key].node == a)
    {
      var p :| p in parents && Reach(db.edges, p, a);
      assert IsValid(db, p, principal, now) && a in Ancestors(db, p);
      SupersededNode(db, after, key, id, a, principal, now);
    }
    assert NodeAdmits(after, id, principal, now) <==>
           AclAdmits(after.nodes[id].payload, principal) && InWindow(after.nodes[id].payload, now);
  }

  // ------------------------------------------------------------- provenance

  lemma {:induction false} RankedOrigin(db: Db, rank: map<Id, nat>, id: Id) returns (origin: Id)
    requires EndpointsKnown(db) && RootsAreOrigins(db) && Ranked(db.edges, rank) && id in db.nodes
    ensures origin in Ancestors(db, id) && db.nodes[origin].payload.Origin?
    decreases if id in rank then rank[id] else 0
  {
    if db.nodes[id].payload.Origin? {
      origin := id;
      ReachRefl(db.edges, id);
    } else {
      var p :| p in Parents(db, id);
      assert (id, p) in db.edges;
      origin := RankedOrigin(db, rank, p);
      ReachCons(db.edges, id, p, origin);
    }
  }

  /** Nothing in the registry is without provenance: every node descends from an origin. */
  lemma EveryNodeHasAnOrigin(h: Digest, db: Db, id: Id)
    requires Inv(h, db) && id in db.nodes
    ensures OriginsAmong(db, Ancestors(db, id)) != {}
  {
    var rank: map<Id, nat> :| Ranked(db.edges, rank);
    var origin := RankedOrigin(db, rank, id);
    assert origin in OriginsAmong(db, Ancestors(db, id));
  }
}
