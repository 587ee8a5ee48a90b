/**
 * What every Cypher statement keeps, whatever runs between two statements of an upsert.
 *
 * Chunk and document ids are minted once: a registry records which tenant a document id
 * belongs to and which document a chunk id belongs to.
 */
module GraphInv {
  import opened Extract
  import opened Graph

  datatype Registry = Registry(docTenant: map<Id, Tenant>, chunkHome: map<Id, Id>)

  predicate HasHome(reg: Registry, c: Id) {
    c in reg.chunkHome && reg.chunkHome[c] in reg.docTenant
  }

  function TenantOf(reg: Registry, c: Id): Tenant
    requires HasHome(reg, c)
  {
    reg.docTenant[reg.chunkHome[c]]
  }

  // ---------------------------------------------------------------- the invariant

  ghost predicate DocsOk(g: Graph, reg: Registry) {
    forall d :: d in g.docs ==> d in reg.docTenant && g.docs[d].tenant == reg.docTenant[d]
  }

  ghost predicate ChunksOk(g: Graph, reg: Registry) {
    forall c :: c in g.chunks ==> HasHome(reg, c) && g.chunks[c].tenant == TenantOf(reg, c)
  }

  ghost predicate PartOfOk(g: Graph, reg: Registry) {
    forall e :: e in g.partOf ==> e.0 in g.chunks && e.1 in g.docs && HasHome(reg, e.0) && reg.chunkHome[e.0] == e.1
  }

  ghost predicate MentionsOk(g: Graph) {
    forall e :: e in g.mentions ==> e.0 in g.chunks && e.1 in g.entities && g.chunks[e.0].tenant == e.1.tenant
  }

  ghost predicate RelatesOk(g: Graph) {
    forall k :: k in g.relates ==>
        k.source in g.entities && k.target in g.entities && k.source.tenant == k.target.tenant
  }

  ghost predicate Inv(g: Graph, reg: Registry) {
    DocsOk(g, reg) && ChunksOk(g, reg) && PartOfOk(g, reg) && MentionsOk(g) && RelatesOk(g)
  }

  /** The same without the registry: no dangling edge, tenants apart, one document per chunk. */
  ghost predicate Sound(g: Graph) {
    && MentionsOk(g) && RelatesOk(g)
    && (forall e :: e in g.partOf ==> e.0 in g.chunks && e.1 in g.docs && g.chunks[e.0].tenant == g.docs[e.1].tenant)
    && (forall e, f :: e in g.partOf && f in g.partOf && e.0 == f.0 ==> e.1 == f.1)
  }

  lemma InvIsSound(g: Graph, reg: Registry)
    requires Inv(g, reg)
    ensures Sound(g)
  {
    forall e | e in g.partOf ensures g.chunks[e.0].tenant == g.docs[e.1].tenant {
      assert e.0 in g.chunks && e.1 in g.docs && reg.chunkHome[e.0] == e.1;
    }
    forall e, f | e in g.partOf && f in g.partOf && e.0 == f.0 ensures e.1 == f.1 {
      assert reg.chunkHome[e.0] == e.1 && reg.chunkHome[f.0] == f.1;
    }
  }

  /** A registry only ever learns new ids. */
  ghost predicate Extends(reg: Registry, more: Registry) {
    && (forall d :: d in reg.docTenant ==> d in more.docTenant && more.docTenant[d] == reg.docTenant[d])
    && (forall c :: c in reg.chunkHome ==> c in more.chunkHome && more.chunkHome[c] == reg.chunkHome[c])
  }

  lemma InvExtends(g: Graph, reg: Registry, more: Registry)
    requires Inv(g, reg) && Extends(reg, more)
    ensures Inv(g, more)
  {
  }

  // ---------------------------------------------------------------- rows agree with the registry

  predicate DocRowOk(r: DocRow, reg: Registry) {
    r.id in reg.docTenant && reg.docTenant[r.id] == r.tenant
  }

  predicate ChunkRowOk(r: ChunkRow, reg: Registry) {
    HasHome(reg, r.id) && reg.chunkHome[r.id] == r.document && TenantOf(reg, r.id) == r.tenant
  }

  predicate MentionRowOk(r: MentionRow, reg: Registry) {
    HasHome(reg, r.chunk) && TenantOf(reg, r.chunk) == r.entity.tenant
  }

  predicate RelationRowOk(r: RelationRow) {
    r.key.source.tenant == r.key.target.tenant
  }

  predicate DocRowsOk(rows: seq<DocRow>, reg: Registry) { forall k :: 0 <= k < |rows| ==> DocRowOk(rows[k], reg) }
  predicate ChunkRowsOk(rows: seq<ChunkRow>, reg: Registry) { forall k :: 0 <= k < |rows| ==> ChunkRowOk(rows[k], reg) }
  predicate MentionRowsOk(rows: seq<MentionRow>, reg: Registry) {
    forall k :: 0 <= k < |rows| ==> MentionRowOk(rows[k], reg)
  }
  predicate RelationRowsOk(rows: seq<RelationRow>) { forall k :: 0 <= k < |rows| ==> RelationRowOk(rows[k]) }

  // ---------------------------------------------------------------- each statement keeps the invariant

  lemma {:induction false} DocMapOk(rows: seq<DocRow>, reg: Registry)
    requires DocRowsOk(rows, reg)
    ensures forall d :: d in DocMap(rows) ==> d in reg.docTenant && DocMap(rows)[d].tenant == reg.docTenant[d]
  {
    if rows != [] {
      DocMapOk(rows[..|rows| - 1], reg);
      assert DocRowOk(rows[|rows| - 1], reg);
    }
  }

  lemma {:induction false} ChunkMapOk(rows: seq<ChunkRow>, reg: Registry)
    requires ChunkRowsOk(rows, reg)
    ensures forall c :: c in ChunkMap(rows) ==> HasHome(reg, c) && ChunkMap(rows)[c].tenant == TenantOf(reg, c)
    ensures forall k :: 0 <= k < |rows| ==> rows[k].id in ChunkMap(rows)
  {
    if rows != [] {
      ChunkMapOk(rows[..|rows| - 1], reg);
      assert ChunkRowOk(rows[|rows| - 1], reg);
    }
  }

  lemma {:induction false} RelationMapOk(rows: seq<RelationRow>, entities: set<EntityKey>)
    requires RelationRowsOk(rows)
    ensures forall k :: k in RelationMap(rows, entities) ==>
              k.source in entities && k.target in entities && k.source.tenant == k.target.tenant
  {
    if rows != [] {
      RelationMapOk(rows[..|rows| - 1], entities);
      assert RelationRowOk(rows[|rows| - 1]);
    }
  }

  lemma MergeDocsKeeps(g: Graph, rows: seq<DocRow>, reg: Registry)
    requires Inv(g, reg) && DocRowsOk(rows, reg)
    ensures Inv(MergeDocs(g, rows), reg)
  {
    DocMapOk(rows, reg);
  }

  lemma MergeChunksKeeps(g: Graph, rows: seq<ChunkRow>, reg: Registry)
    requires Inv(g, reg) && ChunkRowsOk(rows, reg)
    ensures Inv(MergeChunks(g, rows), reg)
  {
    ChunkMapOk(rows, reg);
    var after := MergeChunks(g, rows);
    forall e | e in after.partOf
      ensures e.0 in after.chunks && e.1 in after.docs && HasHome(reg, e.0) && reg.chunkHome[e.0] == e.1
    {
      if e !in g.partOf {
        var k :| 0 <= k < |rows| && rows[k].document in g.docs && (rows[k].id, rows[k].document) == e;
        assert ChunkRowOk(rows[k], reg);
      }
    }
    forall e | e in after.mentions ensures e.0 in after.chunks && after.chunks[e.0].tenant == e.1.tenant {
      assert HasHome(reg, e.0) && g.chunks[e.0].tenant == TenantOf(reg, e.0);
    }
  }

  lemma MergeEntitiesKeeps(g: Graph, rows: map<EntityKey, string>, reg: Registry)
    requires Inv(g, reg)
    ensures Inv(MergeEntities(g, rows), reg)
  {
  }

  lemma MergeMentionsKeeps(g: Graph, rows: seq<MentionRow>, reg: Registry)
    requires Inv(g, reg) && MentionRowsOk(rows, reg)
    ensures Inv(MergeMentions(g, rows), reg)
  {
    var after := MergeMentions(g, rows);
    forall e | e in after.mentions ensures e.0 in g.chunks && e.1 in g.entities && g.chunks[e.0].tenant == e.1.tenant {
      if e !in g.mentions {
        var k :| 0 <= k < |rows| && rows[k].chunk in g.chunks && rows[k].entity in g.entities
          && (rows[k].chunk, rows[k].entity) == e;
        assert MentionRowOk(rows[k], reg);
      }
    }
  }

  lemma MergeRelationsKeeps(g: Graph, rows: seq<RelationRow>, reg: Registry)
    requires Inv(g, reg) && RelationRowsOk(rows)
    ensures Inv(MergeRelations(g, rows), reg)
  {
    RelationMapOk(rows, g.entities.Keys);
  }

  lemma DeleteDocumentKeeps(g: Graph, tenant: Tenant, document: Id, reg: Registry)
    requires Inv(g, reg)
    ensures Inv(DeleteDocument(g, tenant, document), reg)
  {
  }

  lemma DeleteEntitiesKeeps(g: Graph, victims: set<EntityKey>, reg: Registry)
    requires Inv(g, reg)
    ensures Inv(DeleteEntities(g, victims), reg)
  {
  }

  // ---------------------------------------------------------------- rows of one document's batch

  predicate ItemOk(it: Item, reg: Registry) {
    HasHome(reg, it.chunk.id) && reg.chunkHome[it.chunk.id] == it.chunk.document
      && TenantOf(reg, it.chunk.id) == it.chunk.tenant
  }

  predicate ItemsOk(items: seq<Item>, reg: Registry) {
    forall k :: 0 <= k < |items| ==> ItemOk(items[k], reg)
  }

  lemma {:induction false} MentionRowsOfItemsOk(items: seq<Item>, reg: Registry)
    requires ItemsOk(items, reg)
    ensures MentionRowsOk(MentionRows(items), reg)
  {
    if items != [] {
      MentionRowsOfItemsOk(items[..|items| - 1], reg);
      assert ItemOk(items[|items| - 1], reg);
    }
  }

  lemma {:induction false} NamedRelationsOk(tenant: Tenant, types: map<string, string>, rs: seq<ExtractedRelation>)
    ensures RelationRowsOk(NamedRelations(tenant, types, rs))
  {
    if rs != [] { NamedRelationsOk(tenant, types, rs[..|rs| - 1]); }
  }

  lemma {:induction false} RelationRowsOfItemsOk(items: seq<Item>)
    ensures RelationRowsOk(RelationRows(items))
  {
    if items != [] {
      var it := items[|items| - 1];
      RelationRowsOfItemsOk(items[..|items| - 1]);
      NamedRelationsOk(it.chunk.tenant, TypeOf(it.extraction.entities), it.extraction.relations);
    }
  }
}
