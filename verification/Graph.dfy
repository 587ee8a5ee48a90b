/**
 * The knowledge graph and the Cypher statements that change it
 * (app/ingest/graph_indexer.py, app/workers/cleanup.py).
 *
 * Every `session.run` is one atomic step from graph to graph.
 */
module Graph {
  import opened Extract

  type Id = string
  type Tenant = string

  datatype Doc = Doc(tenant: Tenant, filename: string)
  datatype ChunkNode = ChunkNode(tenant: Tenant, page: int, text: string)
  /** Entities are unique per (tenant, name, type). */
  datatype EntityKey = EntityKey(tenant: Tenant, name: string, kind: string)
  datatype RelationKey = RelationKey(source: EntityKey, target: EntityKey, kind: string)

  /** Entities and relations map to their description. */
  datatype Graph = Graph(
    docs: map<Id, Doc>,
    chunks: map<Id, ChunkNode>,
    entities: map<EntityKey, string>,
    partOf: set<(Id, Id)>,
    mentions: set<(Id, EntityKey)>,
    relates: map<RelationKey, string>)

  const EMPTY := Graph(map[], map[], map[], {}, {}, map[])

  datatype DocRow = DocRow(tenant: Tenant, id: Id, filename: string)
  datatype ChunkRow = ChunkRow(id: Id, tenant: Tenant, document: Id, page: int, text: string)
  datatype MentionRow = MentionRow(chunk: Id, entity: EntityKey)
  datatype RelationRow = RelationRow(key: RelationKey, description: string)

  // ---------------------------------------------------------------- statements

  /** Rows of a MERGE ... SET: the last row of an id decides. */
  function DocMap(rows: seq<DocRow>): map<Id, Doc> {
    if rows == [] then map[]
    else var r := rows[|rows| - 1]; DocMap(rows[..|rows| - 1])[r.id := Doc(r.tenant, r.filename)]
  }

  function ChunkMap(rows: seq<ChunkRow>): map<Id, ChunkNode> {
    if rows == [] then map[]
    else var r := rows[|rows| - 1]; ChunkMap(rows[..|rows| - 1])[r.id := ChunkNode(r.tenant, r.page, r.text)]
  }

  /**
   * Rows of a MERGE ... SET coalesce(old, new): the first row of a key decides.
   * Rows with a missing end match nothing.
   */
  function RelationMap(rows: seq<RelationRow>, entities: set<EntityKey>): map<RelationKey, string> {
    if rows == [] then map[]
    else
      var before, r := RelationMap(rows[..|rows| - 1], entities), rows[|rows| - 1];
      if r.key in before || r.key.source !in entities || r.key.target !in entities then before
      else before[r.key := r.description]
  }

  function Links(rows: seq<ChunkRow>, docs: set<Id>): set<(Id, Id)> {
    set k | 0 <= k < |rows| && rows[k].document in docs :: (rows[k].id, rows[k].document)
  }

  function MentionEdges(rows: seq<MentionRow>, chunks: set<Id>, entities: set<EntityKey>): set<(Id, EntityKey)> {
    set k | 0 <= k < |rows| && rows[k].chunk in chunks && rows[k].entity in entities :: (rows[k].chunk, rows[k].entity)
  }

  function MergeDocs(g: Graph, rows: seq<DocRow>): Graph {
    g.(docs := g.docs + DocMap(rows))
  }

  function MergeChunks(g: Graph, rows: seq<ChunkRow>): Graph {
    g.(chunks := g.chunks + ChunkMap(rows), partOf := g.partOf + Links(rows, g.docs.Keys))
  }

  function MergeEntities(g: Graph, rows: map<EntityKey, string>): Graph {
    g.(entities := rows + g.entities)
  }

  function MergeMentions(g: Graph, rows: seq<MentionRow>): Graph {
    g.(mentions := g.mentions + MentionEdges(rows, g.chunks.Keys, g.entities.Keys))
  }

  function MergeRelations(g: Graph, rows: seq<RelationRow>): Graph {
    g.(relates := RelationMap(rows, g.entities.Keys) + g.relates)
  }

  /** DETACH DELETE of a document of the tenant and of the chunks PART_OF it. */
  function DeleteDocument(g: Graph, tenant: Tenant, document: Id): Graph {
    if document in g.docs && g.docs[document].tenant == tenant then
      var gone := set c | c in g.chunks && (c, document) in g.partOf;
      g.(docs := g.docs - {document},
         chunks := g.chunks - gone,
         partOf := (set e | e in g.partOf && e.0 !in gone && e.1 != document),
         mentions := (set e | e in g.mentions && e.0 !in gone))
    else g
  }

  /** DETACH DELETE of entities. */
  function DeleteEntities(g: Graph, victims: set<EntityKey>): Graph {
    g.(entities := g.entities - victims,
       mentions := (set e | e in g.mentions && e.1 !in victims),
       relates := map k | k in g.relates && k.source !in victims && k.target !in victims :: g.relates[k])
  }

  predicate HasDocument(g: Graph, tenant: Tenant, document: Id) {
    document in g.docs && g.docs[document].tenant == tenant
  }

  /** Node `c` is one of the chunks PART_OF the document. */
  predicate OfDocument(g: Graph, c: Id, document: Id) {
    c in g.chunks && (c, document) in g.partOf
  }

  /**
   * The document and the chunks PART_OF it are gone, with every edge that touches them. Everything else,
   * entities and their relations included, is as it was.
   */
  ghost predicate OnlyDocumentRemoved(before: Graph, after: Graph, document: Id) {
    && (forall d :: d in after.docs <==> d in before.docs && d != document)
    && (forall d :: d in after.docs ==> after.docs[d] == before.docs[d])
    && (forall c :: c in after.chunks <==> c in before.chunks && !OfDocument(before, c, document))
    && (forall c :: c in after.chunks ==> after.chunks[c] == before.chunks[c])
    && (forall e :: e in after.partOf <==>
          e in before.partOf && e.1 != document && !OfDocument(before, e.0, document))
    && (forall e :: e in after.mentions <==> e in before.mentions && !OfDocument(before, e.0, document))
    && after.entities == before.entities && after.relates == before.relates
  }

  /** What deletion means, and that this settles the graph: there is no other such graph. */
  lemma DeleteRemovesOnlyDocument(g: Graph, tenant: Tenant, document: Id)
    ensures !HasDocument(g, tenant, document) ==> DeleteDocument(g, tenant, document) == g
    ensures HasDocument(g, tenant, document) ==>
              OnlyDocumentRemoved(g, DeleteDocument(g, tenant, document), document)
  {
  }

  lemma OnlyOneDeletion(before: Graph, a: Graph, b: Graph, document: Id)
    requires OnlyDocumentRemoved(before, a, document) && OnlyDocumentRemoved(before, b, document)
    ensures a == b
  {
    SameMap(a.docs, b.docs);
    SameMap(a.chunks, b.chunks);
    assert a.partOf == b.partOf && a.mentions == b.mentions;
  }

  lemma SameMap<K, V>(a: map<K, V>, b: map<K, V>)
    requires forall k :: k in a <==> k in b
    requires forall k :: k in a ==> a[k] == b[k]
    ensures a == b
  {
  }

  // ---------------------------------------------------------------- rows of a batch

  datatype GraphChunk = GraphChunk(id: Id, tenant: Tenant, document: Id, filename: string, page: int, text: string)
  datatype Item = Item(chunk: GraphChunk, extraction: ChunkExtraction)

  function Clip(text: string): string { if |text| <= 500 then text else text[..500] }

  function KeyOf(tenant: Tenant, e: ExtractedEntity): EntityKey { EntityKey(tenant, e.name, e.kind) }

  function ToDocRow(c: GraphChunk): DocRow { DocRow(c.tenant, c.document, c.filename) }
  function ToChunkRow(c: GraphChunk): ChunkRow { ChunkRow(c.id, c.tenant, c.document, c.page, Clip(c.text)) }

  function DocRows(items: seq<Item>): seq<DocRow> {
    seq(|items|, k requires 0 <= k < |items| => ToDocRow(items[k].chunk))
  }

  function ChunkRows(items: seq<Item>): seq<ChunkRow> {
    seq(|items|, k requires 0 <= k < |items| => ToChunkRow(items[k].chunk))
  }

  /** `{e.name: e.type for e in entities}`: the last entity of a name decides. */
  function TypeOf(entities: seq<ExtractedEntity>): map<string, string> {
    if entities == [] then map[]
    else var e := entities[|entities| - 1]; TypeOf(entities[..|entities| - 1])[e.name := e.kind]
  }

  /** Adds entities to the row dictionary: the first description of a key stays. */
  function AddEntities(rows: map<EntityKey, string>, tenant: Tenant,
                       entities: seq<ExtractedEntity>): map<EntityKey, string> {
    if entities == [] then rows
    else
      var before, e := AddEntities(rows, tenant, entities[..|entities| - 1]), entities[|entities| - 1];
      if KeyOf(tenant, e) in before then before else before[KeyOf(tenant, e) := e.description]
  }

  function EntityRows(items: seq<Item>): map<EntityKey, string> {
    if items == [] then map[]
    else
      var it := items[|items| - 1];
      AddEntities(EntityRows(items[..|items| - 1]), it.chunk.tenant, it.extraction.entities)
  }

  function ItemMentions(it: Item): seq<MentionRow> {
    var es := it.extraction.entities;
    seq(|es|, k requires 0 <= k < |es| => MentionRow(it.chunk.id, KeyOf(it.chunk.tenant, es[k])))
  }

  function MentionRows(items: seq<Item>): seq<MentionRow> {
    if items == [] then [] else MentionRows(items[..|items| - 1]) + ItemMentions(items[|items| - 1])
  }

  /** Relations whose ends are both named in the chunk. */
  function NamedRelations(tenant: Tenant, types: map<string, string>,
                          relations: seq<ExtractedRelation>): seq<RelationRow> {
    if relations == [] then []
    else
      var before, r := NamedRelations(tenant, types, relations[..|relations| - 1]), relations[|relations| - 1];
      if r.source !in types || r.target !in types then before
      else before + [ToRelationRow(tenant, types, r)]
  }

  function ToRelationRow(tenant: Tenant, types: map<string, string>, r: ExtractedRelation): RelationRow
    requires r.source in types && r.target in types
  {
    RelationRow(RelationKey(EntityKey(tenant, r.source, types[r.source]),
                            EntityKey(tenant, r.target, types[r.target]), r.kind),
                r.description)
  }

  function ItemRelations(it: Item): seq<RelationRow> {
    NamedRelations(it.chunk.tenant, TypeOf(it.extraction.entities), it.extraction.relations)
  }

  function RelationRows(items: seq<Item>): seq<RelationRow> {
    if items == [] then [] else RelationRows(items[..|items| - 1]) + ItemRelations(items[|items| - 1])
  }

  // ---------------------------------------------------------------- a whole upsert, undisturbed

  /** `docRows` is the listing of the row set the program happens to obtain. */
  function UpsertWith(g: Graph, docRows: seq<DocRow>, items: seq<Item>): Graph {
    if items == [] then g
    else
      var g2 := MergeChunks(MergeDocs(g, docRows), ChunkRows(items));
      if EntityRows(items) == map[] then g2
      else
        var g4 := MergeMentions(MergeEntities(g2, EntityRows(items)), MentionRows(items));
        if RelationRows(items) == [] then g4 else MergeRelations(g4, RelationRows(items))
  }

  function Upsert(g: Graph, items: seq<Item>): Graph {
    UpsertWith(g, DocRows(items), items)
  }

  function Skeleton(g: Graph, docRows: seq<DocRow>, chunks: seq<ChunkRow>): Graph {
    if chunks == [] then g else MergeChunks(MergeDocs(g, docRows), chunks)
  }

  predicate SameRows(a: seq<DocRow>, b: seq<DocRow>) {
    (forall r :: r in a ==> r in b) && (forall r :: r in b ==> r in a)
  }

  // ---------------------------------------------------------------- the program

  method CollectItem(it: Item, entityRows: map<EntityKey, string>, mentionRows: seq<MentionRow>,
                     relationRows: seq<RelationRow>)
    returns (entities: map<EntityKey, string>, mentions: seq<MentionRow>, relations: seq<RelationRow>)
    ensures entities == AddEntities(entityRows, it.chunk.tenant, it.extraction.entities)
    ensures mentions == mentionRows + ItemMentions(it)
    ensures relations == relationRows + ItemRelations(it)
  {
    entities, mentions := CollectEntities(it, entityRows, mentionRows);
    relations := CollectRelations(it, relationRows);
  }

  method CollectEntities(it: Item, entityRows: map<EntityKey, string>, mentionRows: seq<MentionRow>)
    returns (entities: map<EntityKey, string>, mentions: seq<MentionRow>)
    ensures entities == AddEntities(entityRows, it.chunk.tenant, it.extraction.entities)
    ensures mentions == mentionRows + ItemMentions(it)
  {
    var tenant, es := it.chunk.tenant, it.extraction.entities;
    entities, mentions := entityRows, mentionRows;
    for k := 0 to |es|
      invariant entities == AddEntities(entityRows, tenant, es[..k])
      invariant mentions == mentionRows + ItemMentions(it)[..k]
    {
      assert es[..k + 1][..k] == es[..k];
      var key := KeyOf(tenant, es[k]);
      if key !in entities { entities := entities[key := es[k].description]; }
      mentions := mentions + [MentionRow(it.chunk.id, key)];
    }
    assert es[..|es|] == es;
  }

  method CollectRelations(it: Item, relationRows: seq<RelationRow>) returns (relations: seq<RelationRow>)
    ensures relations == relationRows + ItemRelations(it)
  {
    var tenant, rs := it.chunk.tenant, it.extraction.relations;
    var types := TypeOf(it.extraction.entities);
    relations := relationRows;
    for k := 0 to |rs|
      invariant relations == relationRows + NamedRelations(tenant, types, rs[..k])
    {
      assert rs[..k + 1][..k] == rs[..k];
      if rs[k].source !in types || rs[k].target !in types { continue; }
      relations := relations + [ToRelationRow(tenant, types, rs[k])];
    }
    assert rs[..|rs|] == rs;
  }

  method BuildRows(items: seq<Item>)
    returns (entityRows: map<EntityKey, string>, mentionRows: seq<MentionRow>, relationRows: seq<RelationRow>)
    ensures entityRows == EntityRows(items) && mentionRows == MentionRows(items) && relationRows == RelationRows(items)
  {
    entityRows, mentionRows, relationRows := map[], [], [];
    for k := 0 to |items|
      invariant entityRows == EntityRows(items[..k])
      invariant mentionRows == MentionRows(items[..k]) && relationRows == RelationRows(items[..k])
    {
      assert items[..k + 1][..k] == items[..k];
      entityRows, mentionRows, relationRows := CollectItem(items[k], entityRows, mentionRows, relationRows);
    }
    assert items[..|items|] == items;
  }

  /** `list({...})`: the distinct rows, in whatever order the set gives them. */
  method ListDocRows(items: seq<Item>) returns (rows: seq<DocRow>)
    ensures SameRows(rows, DocRows(items))
  {
    var all := DocRows(items);
    var left := set k | 0 <= k < |all| :: all[k];
    rows := [];
    while left != {}
      invariant forall r :: r in rows || r in left <==> r in all
      decreases left
    {
      var r :| r in left;
      rows, left := rows + [r], left - {r};
    }
  }

  class GraphStore {
    var g: Graph

    constructor ()
      ensures g == EMPTY
    {
      g := EMPTY;
    }

    method UpsertChunksWithGraph(items: seq<Item>)
      modifies this
      ensures exists docRows :: SameRows(docRows, DocRows(items)) && g == UpsertWith(old(g), docRows, items)
    {
      ghost var g0 := g;
      var docRows := ListDocRows(items);
      if items == [] {
        assert g == UpsertWith(g0, docRows, items);
        return;
      }
      var entityRows, mentionRows, relationRows := BuildRows(items);
      g := MergeDocs(g, docRows);
      g := MergeChunks(g, ChunkRows(items));
      if entityRows != map[] {
        g := MergeEntities(g, entityRows);
        g := MergeMentions(g, mentionRows);
        if relationRows != [] {
          g := MergeRelations(g, relationRows);
        }
      }
      assert g == UpsertWith(g0, docRows, items);
    }

    method UpsertChunksSkeleton(items: seq<Item>)
      modifies this
      ensures exists docRows :: SameRows(docRows, DocRows(items)) && g == Skeleton(old(g), docRows, ChunkRows(items))
    {
      ghost var g0 := g;
      var docRows := ListDocRows(items);
      if items != [] {
        g := MergeDocs(g, docRows);
        g := MergeChunks(g, ChunkRows(items));
      }
      assert g == Skeleton(g0, docRows, ChunkRows(items));
    }

    method DeleteDocumentGraph(tenant: Tenant, document: Id)
      modifies this
      ensures g == DeleteDocument(old(g), tenant, document)
      ensures if HasDocument(old(g), tenant, document) then OnlyDocumentRemoved(old(g), g, document) else g == old(g)
    {
      ghost var before := g;
      g := DeleteDocument(g, tenant, document);
      DeleteRemovesOnlyDocument(before, tenant, document);
    }
  }
}
