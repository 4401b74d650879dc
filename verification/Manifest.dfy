/** The execution manifest: what a serving runtime may run, decided by reading
    the artifact headers instead of walking the lineage again. */
module Manifest {
  import opened Prelude
  import opened Graphs
  import opened Lineage
  import opened LineageHistory
  import opened RegistryStore

  datatype Manifest = Manifest(generation: Id, artifacts: set<Id>, origins: set<Id>, reader: Option<Id>, principal: string)

  function ReaderSet(reader: Option<Id>): set<Id> {
    if reader.Some? then {reader.value} else {}
  }

  function Dependencies(generation: Id, artifacts: set<Id>, reader: Option<Id>): set<Id> {
    {generation} + artifacts + ReaderSet(reader)
  }

  /** `generations` of a payload that may have no header. */
  predicate ListsGeneration(p: Payload, generation: Id) {
    p.Artifact? && generation in p.generations
  }

  /** The node is an artifact and truly descends from the generation. */
  ghost predicate DerivedFrom(db: Db, id: Id, generation: Id) {
    id in db.nodes && db.nodes[id].payload.Artifact? && generation in Ancestors(db, id)
  }

  predicate ReaderKind(p: Payload) {
    p.Artifact? && (p.kind == "lora" || p.kind == "model")
  }

  /** The membership test on a header decides ancestry. */
  lemma HeaderDecidesAncestry(db: Db, id: Id, generation: Id)
    requires HeadersExact(db) && id in db.nodes && generation in db.nodes && db.nodes[generation].payload.Knowledge?
    ensures ListsGeneration(db.nodes[id].payload, generation) <==> DerivedFrom(db, id, generation)
  {
    assert HeaderExact(db, id);
  }

  /** What a manifest is meant to certify. */
  ghost predicate Certifiable(db: Db, generation: Id, artifacts: set<Id>, reader: Option<Id>, principal: string, now: int) {
    && artifacts != {}
    && Accepted(db, Dependencies(generation, artifacts, reader), principal, now)
    && db.nodes[generation].payload.Knowledge?
    && (forall a :: a in artifacts ==> DerivedFrom(db, a, generation))
    && (reader.Some? ==> ReaderKind(db.nodes[reader.value].payload) && DerivedFrom(db, reader.value, generation))
  }

  lemma AcceptedKnown(db: Db, ids: set<Id>, principal: string, now: int)
    requires Accepted(db, ids, principal, now)
    ensures ids <= db.nodes.Keys
  {
    forall id | id in ids
      ensures id in db.nodes
    {
      assert IsValid(db, id, principal, now);
    }
  }

  lemma OriginsAboveArtifact(db: Db, done: set<Id>, a: Id)
    requires HeadersExact(db) && a in db.nodes && db.nodes[a].payload.Artifact?
    ensures OriginsAmong(db, AncestorsOfAll(db, done + {a}))
         == OriginsAmong(db, AncestorsOfAll(db, done)) + db.nodes[a].payload.originKeys
  {
    AncestorsOfOneMore(db, done, a);
    assert HeaderExact(db, a);
  }

  /** Once one artifact descends from the generation, the generation's own roots are already counted. */
  lemma GenerationRootsIncluded(db: Db, generation: Id, artifacts: set<Id>)
    requires artifacts != {} && forall a :: a in artifacts ==> DerivedFrom(db, a, generation)
    ensures AncestorsOfAll(db, artifacts + {generation}) == AncestorsOfAll(db, artifacts)
  {
    AncestorsOfOneMore(db, artifacts, generation);
    var a :| a in artifacts;
    forall x | x in Ancestors(db, generation)
      ensures x in AncestorsOfAll(db, artifacts)
    {
      assert DerivedFrom(db, a, generation);
      ReachTrans(db.edges, a, generation, x);
    }
  }

  /** Walks the artifacts, adding the origins each header lists. */
  method CheckArtifacts(registry: Registry, generation: Id, artifacts: seq<Id>, roots: set<Id>)
      returns (ok: bool, origins: set<Id>)
    requires HeadersExact(registry.Tables()) && Elems(artifacts) <= registry.nodes.Keys
    requires generation in registry.nodes && registry.nodes[generation].payload.Knowledge?
    requires roots == OriginsAmong(registry.Tables(), Ancestors(registry.Tables(), generation))
    ensures ok <==> forall a :: a in Elems(artifacts) ==> DerivedFrom(registry.Tables(), a, generation)
    ensures ok ==> origins == OriginsAmong(registry.Tables(), AncestorsOfAll(registry.Tables(), Elems(artifacts) + {generation}))
  {
    ghost var db := registry.Tables();
    origins := roots;
    assert AncestorsOfAll(db, Elems(artifacts[..0]) + {generation}) == Ancestors(db, generation);
    for i := 0 to |artifacts|
      invariant forall a :: a in artifacts[..i] ==> DerivedFrom(db, a, generation)
      invariant origins == OriginsAmong(db, AncestorsOfAll(db, Elems(artifacts[..i]) + {generation}))
    {
      assert artifacts[i] in Elems(artifacts);
      var p := registry.nodes[artifacts[i]].payload;
      HeaderDecidesAncestry(db, artifacts[i], generation);
      if !ListsGeneration(p, generation) { return false, origins; }
      origins := origins + p.originKeys;
      OriginsAboveArtifact(db, Elems(artifacts[..i]) + {generation}, artifacts[i]);
      ElemsOfOneMore(artifacts, i);
      assert Elems(artifacts[..i]) + {generation} + {artifacts[i]} == Elems(artifacts[..i + 1]) + {generation};
    }
    assert artifacts[..|artifacts|] == artifacts;
    return true, origins;
  }

  method BuildInside(registry: Registry, generation: Id, artifacts: seq<Id>, reader: Option<Id>, principal: string, now: int)
      returns (r: Result<Manifest, Error>)
    requires EndpointsKnown(registry.Tables()) && HeadersExact(registry.Tables())
    ensures r.Ok? <==> Certifiable(registry.Tables(), generation, Elems(artifacts), reader, principal, now)
    ensures r.Ok? ==>
      && r.value.generation == generation && r.value.artifacts == Elems(artifacts) && r.value.reader == reader
      && r.value.origins == OriginsAmong(registry.Tables(), AncestorsOfAll(registry.Tables(), Elems(artifacts)))
  {
    ghost var db := registry.Tables();
    if artifacts == [] {
      assert Elems(artifacts) == {};
      return Err(InvalidState);
    }
    assert artifacts[0] in Elems(artifacts);
    var listed := [generation] + artifacts + (if reader.Some? then [reader.value] else []);
    ListedDependencies(generation, artifacts, reader);
    var accepted := registry.TakeSnapshot(listed, principal, now);
    if !accepted { return Err(InvalidState); }
    AcceptedKnown(db, Elems(listed), principal, now);
    var above := registry.AncestorsOf(generation);
    if !registry.nodes[generation].payload.Knowledge? { return Err(InvalidState); }
    var ok, origins := CheckArtifacts(registry, generation, artifacts, OriginsAmong(registry.Tables(), above.value));
    if !ok { return Err(InvalidState); }
    if reader.Some? {
      var p := registry.nodes[reader.value].payload;
      HeaderDecidesAncestry(db, reader.value, generation);
      if !ReaderKind(p) || !ListsGeneration(p, generation) { return Err(InvalidState); }
    }
    GenerationRootsIncluded(db, generation, Elems(artifacts));
    return Ok(Manifest(generation, Elems(artifacts), origins, reader, principal));
  }

  lemma ListedDependencies(generation: Id, artifacts: seq<Id>, reader: Option<Id>)
    ensures Elems([generation] + artifacts + (if reader.Some? then [reader.value] else []))
         == Dependencies(generation, Elems(artifacts), reader)
  {
  }

  /** Builds the manifest, or refuses exactly when it is not certifiable; its
      origins are all the origins above its artifacts. */
  method Build(registry: Registry, generation: Id, artifacts: seq<Id>, reader: Option<Id>, principal: string, now: int)
      returns (r: Result<Manifest, Error>)
    requires registry.Valid()
    ensures r.Ok? <==> Certifiable(registry.Tables(), generation, Elems(artifacts), reader, principal, now)
    ensures r.Ok? ==>
      && r.value.generation == generation && r.value.artifacts == Elems(artifacts) && r.value.reader == reader
      && r.value.origins == OriginsAmong(registry.Tables(), AncestorsOfAll(registry.Tables(), Elems(artifacts)))
  {
    r := BuildInside(registry, generation, artifacts, reader, principal, now);
  }
}
