/** What an undisturbed upsert amounts to (app/ingest/graph_indexer.py). */
module UpsertProofs {
  import opened Numbers
  import opened Extract
  import opened Graph

  // ---------------------------------------------------------------- rows always find their ends

  lemma {:induction false} AddEntitiesKeys(rows: map<EntityKey, string>, tenant: Tenant, es: seq<ExtractedEntity>)
    ensures forall key :: key in AddEntities(rows, tenant, es) <==>
              key in rows || exists k :: 0 <= k < |es| && KeyOf(tenant, es[k]) == key
  {
    if es != [] {
      AddEntitiesKeys(rows, tenant, es[..|es| - 1]);
    }
  }

  /** Rows added to a dictionary: what is already there stays, the rest is as if added to an empty one. */
  lemma {:induction false} AddEntitiesMerge(rows: map<EntityKey, string>, tenant: Tenant, es: seq<ExtractedEntity>)
    ensures AddEntities(rows, tenant, es) == AddEntities(map[], tenant, es) + rows
  {
    if es != [] {
      AddEntitiesMerge(rows, tenant, es[..|es| - 1]);
    }
  }

  lemma {:induction false} EntityRowsKeys(items: seq<Item>, i: nat)
    requires i < |items|
    ensures forall k :: 0 <= k < |items[i].extraction.entities| ==>
              KeyOf(items[i].chunk.tenant, items[i].extraction.entities[k]) in EntityRows(items)
  {
    var n := |items| - 1;
    var init := items[..n];
    AddEntitiesKeys(EntityRows(init), items[n].chunk.tenant, items[n].extraction.entities);
    if i < n { EntityRowsKeys(init, i); }
  }

  lemma {:induction false} TypeOfNames(es: seq<ExtractedEntity>, name: string) returns (k: nat)
    requires name in TypeOf(es)
    ensures k < |es| && es[k].name == name && es[k].kind == TypeOf(es)[name]
  {
    var n := |es| - 1;
    if es[n].name == name { k := n; } else { k := TypeOfNames(es[..n], name); }
  }

  lemma {:induction false} TypeOfHas(es: seq<ExtractedEntity>, k: nat)
    requires k < |es|
    ensures es[k].name in TypeOf(es)
  {
    var n := |es| - 1;
    if k < n { TypeOfHas(es[..n], k); }
  }

  predicate EndsIn(rows: seq<RelationRow>, entities: set<EntityKey>) {
    forall k :: 0 <= k < |rows| ==> rows[k].key.source in entities && rows[k].key.target in entities
  }

  lemma {:induction false} NamedRelationsEnds(tenant: Tenant, es: seq<ExtractedEntity>, rs: seq<ExtractedRelation>,
                                              entities: set<EntityKey>)
    requires forall k :: 0 <= k < |es| ==> KeyOf(tenant, es[k]) in entities
    ensures EndsIn(NamedRelations(tenant, TypeOf(es), rs), entities)
  {
    if rs != [] {
      NamedRelationsEnds(tenant, es, rs[..|rs| - 1], entities);
      var r := rs[|rs| - 1];
      if r.source in TypeOf(es) && r.target in TypeOf(es) {
        var s := TypeOfNames(es, r.source);
        var t := TypeOfNames(es, r.target);
        assert KeyOf(tenant, es[s]) in entities && KeyOf(tenant, es[t]) in entities;
      }
    }
  }

  lemma {:induction false} RelationRowsEnds(items: seq<Item>)
    ensures EndsIn(RelationRows(items), EntityRows(items).Keys)
  {
    if items != [] {
      var n := |items| - 1;
      var init, it := items[..n], items[n];
      RelationRowsEnds(init);
      AddEntitiesKeys(EntityRows(init), it.chunk.tenant, it.extraction.entities);
      EntityRowsKeys(items, n);
      NamedRelationsEnds(it.chunk.tenant, it.extraction.entities, it.extraction.relations, EntityRows(items).Keys);
    }
  }

  predicate MentionsIn(rows: seq<MentionRow>, chunks: set<Id>, entities: set<EntityKey>) {
    forall k :: 0 <= k < |rows| ==> rows[k].chunk in chunks && rows[k].entity in entities
  }

  function ChunkIds(items: seq<Item>): set<Id> { set k | 0 <= k < |items| :: items[k].chunk.id }
  function DocIds(items: seq<Item>): set<Id> { set k | 0 <= k < |items| :: items[k].chunk.document }

  lemma {:induction false} MentionRowsEnds(items: seq<Item>)
    ensures MentionsIn(MentionRows(items), ChunkIds(items), EntityRows(items).Keys)
  {
    if items != [] {
      var n := |items| - 1;
      var init := items[..n];
      MentionRowsEnds(init);
      EntityRowsKeys(items, n);
      AddEntitiesKeys(EntityRows(init), items[n].chunk.tenant, items[n].extraction.entities);
      assert items[n].chunk.id in ChunkIds(items);
      forall id | id in ChunkIds(init) ensures id in ChunkIds(items) {
        var k :| 0 <= k < n && init[k].chunk.id == id;
        assert items[k].chunk.id == id;
      }
    }
  }

  lemma {:induction false} DocMapKeys(rows: seq<DocRow>)
    ensures DocMap(rows).Keys == set k | 0 <= k < |rows| :: rows[k].id
  {
    if rows != [] { DocMapKeys(rows[..|rows| - 1]); }
  }

  lemma {:induction false} ChunkMapKeys(rows: seq<ChunkRow>)
    ensures ChunkMap(rows).Keys == set k | 0 <= k < |rows| :: rows[k].id
  {
    if rows != [] { ChunkMapKeys(rows[..|rows| - 1]); }
  }

  /** With its ends present, a relation map does not depend on what else the graph holds. */
  lemma {:induction false} RelationMapEnds(rows: seq<RelationRow>, few: set<EntityKey>, many: set<EntityKey>)
    requires EndsIn(rows, few) && few <= many
    ensures RelationMap(rows, few) == RelationMap(rows, many)
  {
    if rows != [] { RelationMapEnds(rows[..|rows| - 1], few, many); }
  }

  lemma {:induction false} RelationMapAppend(a: seq<RelationRow>, b: seq<RelationRow>, entities: set<EntityKey>)
    ensures RelationMap(a + b, entities) == RelationMap(b, entities) + RelationMap(a, entities)
  {
    if b == [] {
      assert a + b == a;
    } else {
      var n := |b| - 1;
      assert (a + b)[..|a + b| - 1] == a + b[..n];
      RelationMapAppend(a, b[..n], entities);
    }
  }

  // ---------------------------------------------------------------- closed form

  function PartOfEdges(items: seq<Item>): set<(Id, Id)> {
    set k | 0 <= k < |items| :: (items[k].chunk.id, items[k].chunk.document)
  }

  function EdgesOf(rows: seq<MentionRow>): set<(Id, EntityKey)> {
    set k | 0 <= k < |rows| :: (rows[k].chunk, rows[k].entity)
  }

  function AllMentions(items: seq<Item>): set<(Id, EntityKey)> {
    EdgesOf(MentionRows(items))
  }

  function AllRelations(items: seq<Item>): map<RelationKey, string> {
    RelationMap(RelationRows(items), EntityRows(items).Keys)
  }

  /** No row of the batch is lost: this is the graph plus everything the batch says. */
  function Added(g: Graph, items: seq<Item>): Graph {
    Graph(
      g.docs + DocMap(DocRows(items)),
      g.chunks + ChunkMap(ChunkRows(items)),
      EntityRows(items) + g.entities,
      g.partOf + PartOfEdges(items),
      g.mentions + AllMentions(items),
      AllRelations(items) + g.relates)
  }

  lemma AllLinked(items: seq<Item>, docs: set<Id>)
    requires DocIds(items) <= docs
    ensures Links(ChunkRows(items), docs) == PartOfEdges(items)
  {
    var rows := ChunkRows(items);
    forall k | 0 <= k < |items|
      ensures rows[k].document in docs && (rows[k].id, rows[k].document) == (items[k].chunk.id, items[k].chunk.document)
    {
      assert items[k].chunk.document in DocIds(items);
    }
  }

  lemma AllMentioned(items: seq<Item>, chunks: set<Id>, entities: set<EntityKey>)
    requires ChunkIds(items) <= chunks && EntityRows(items).Keys <= entities
    ensures MentionEdges(MentionRows(items), chunks, entities) == AllMentions(items)
  {
    MentionRowsEnds(items);
    var rows := MentionRows(items);
    forall k | 0 <= k < |rows| ensures rows[k].chunk in chunks && rows[k].entity in entities {}
  }

  lemma UpsertDocsAndChunks(g: Graph, items: seq<Item>)
    ensures var g2 := MergeChunks(MergeDocs(g, DocRows(items)), ChunkRows(items));
            && g2 == Graph(g.docs + DocMap(DocRows(items)), g.chunks + ChunkMap(ChunkRows(items)), g.entities,
                           g.partOf + PartOfEdges(items), g.mentions, g.relates)
            && ChunkIds(items) <= g2.chunks.Keys
  {
    DocMapKeys(DocRows(items));
    ChunkMapKeys(ChunkRows(items));
    forall id | id in DocIds(items) ensures id in DocMap(DocRows(items)) {
      var k :| 0 <= k < |items| && items[k].chunk.document == id;
      assert DocRows(items)[k].id == id;
    }
    forall id | id in ChunkIds(items) ensures id in ChunkMap(ChunkRows(items)) {
      var k :| 0 <= k < |items| && items[k].chunk.id == id;
      assert ChunkRows(items)[k].id == id;
    }
    AllLinked(items, (g.docs + DocMap(DocRows(items))).Keys);
  }

  lemma RowsNeedEntities(relations: seq<RelationRow>, mentions: seq<MentionRow>, chunks: set<Id>,
                         entities: set<EntityKey>)
    requires EndsIn(relations, entities) && MentionsIn(mentions, chunks, entities)
    ensures relations != [] || mentions != [] ==> entities != {}
  {
    if relations != [] {
      assert relations[0].key.source in entities;
    } else if mentions != [] {
      assert mentions[0].entity in entities;
    }
  }

  lemma NoEntities(items: seq<Item>)
    requires EntityRows(items) == map[]
    ensures RelationRows(items) == [] && AllMentions(items) == {}
  {
    RelationRowsEnds(items);
    MentionRowsEnds(items);
    RowsNeedEntities(RelationRows(items), MentionRows(items), ChunkIds(items), EntityRows(items).Keys);
  }

  lemma MergeAll(g2: Graph, items: seq<Item>)
    requires ChunkIds(items) <= g2.chunks.Keys
    ensures MergeMentions(MergeEntities(g2, EntityRows(items)), MentionRows(items))
         == g2.(entities := EntityRows(items) + g2.entities, mentions := g2.mentions + AllMentions(items))
    ensures RelationMap(RelationRows(items), (EntityRows(items) + g2.entities).Keys) == AllRelations(items)
  {
    var g3 := MergeEntities(g2, EntityRows(items));
    AllMentioned(items, g3.chunks.Keys, g3.entities.Keys);
    RelationRowsEnds(items);
    RelationMapEnds(RelationRows(items), EntityRows(items).Keys, g3.entities.Keys);
  }

  lemma EmptyMerge<K, V>(m: map<K, V>)
    ensures map[] + m == m && m + map[] == m
  {
  }

  /** Main result: an undisturbed upsert adds every row of the batch, none is lost at its MATCH. */
  lemma UpsertAddsEverything(g: Graph, items: seq<Item>)
    ensures Upsert(g, items) == Added(g, items)
  {
    EmptyMerge(g.relates);
    EmptyMerge(g.entities);
    if items == [] {
      EmptyMerge(g.docs);
      EmptyMerge(g.chunks);
      NoEntities(items);
      assert PartOfEdges(items) == {};
    } else {
      UpsertDocsAndChunks(g, items);
      var g2 := MergeChunks(MergeDocs(g, DocRows(items)), ChunkRows(items));
      if EntityRows(items) == map[] {
        NoEntities(items);
      } else {
        MergeAll(g2, items);
      }
    }
  }

  /** Without extraction: the documents, the chunks and what is PART_OF what, and nothing else. */
  lemma SkeletonAdds(g: Graph, items: seq<Item>)
    ensures Skeleton(g, DocRows(items), ChunkRows(items))
         == g.(docs := g.docs + DocMap(DocRows(items)), chunks := g.chunks + ChunkMap(ChunkRows(items)),
               partOf := g.partOf + PartOfEdges(items))
  {
    if items == [] {
      EmptyMerge(g.docs);
      EmptyMerge(g.chunks);
      assert PartOfEdges(items) == {};
    } else {
      UpsertDocsAndChunks(g, items);
    }
  }

  // ---------------------------------------------------------------- batch and fold, idempotence

  function UpsertOne(g: Graph, x: Item): Graph { Upsert(g, [x]) }

  /** The chunks upserted one at a time, in order. */
  function UpsertEach(g: Graph, items: seq<Item>): Graph {
    FoldLeft(g, items, UpsertOne)
  }

  lemma MapAssoc<K, V>(a: map<K, V>, b: map<K, V>, c: map<K, V>)
    ensures a + (b + c) == (a + b) + c
  {
  }

  lemma AddedStep(g: Graph, items: seq<Item>, x: Item)
    ensures Added(Added(g, items), [x]) == Added(g, items + [x])
  {
    DocStep(items, x);
    ChunkStep(items, x);
    MapAssoc(g.docs, DocMap(DocRows(items)), DocMap(DocRows([x])));
    MapAssoc(g.chunks, ChunkMap(ChunkRows(items)), ChunkMap(ChunkRows([x])));
    EntityStep(items, x);
    MapAssoc(EntityRows([x]), EntityRows(items), g.entities);
    RelationStep(items, x);
    MapAssoc(AllRelations([x]), AllRelations(items), g.relates);
    PartOfStep(items, x);
    MentionStep(items, x);
  }

  lemma DocStep(items: seq<Item>, x: Item)
    ensures DocMap(DocRows(items + [x])) == DocMap(DocRows(items)) + DocMap(DocRows([x]))
  {
    var d := ToDocRow(x.chunk);
    assert DocRows(items + [x]) == DocRows(items) + [d] && DocRows([x]) == [d];
    assert (DocRows(items) + [d])[..|items|] == DocRows(items) && [d][..0] == [];
    assert DocMap([d]) == map[d.id := Doc(d.tenant, d.filename)];
  }

  lemma ChunkStep(items: seq<Item>, x: Item)
    ensures ChunkMap(ChunkRows(items + [x])) == ChunkMap(ChunkRows(items)) + ChunkMap(ChunkRows([x]))
  {
    var c := ToChunkRow(x.chunk);
    assert ChunkRows(items + [x]) == ChunkRows(items) + [c] && ChunkRows([x]) == [c];
    assert (ChunkRows(items) + [c])[..|items|] == ChunkRows(items) && [c][..0] == [];
    assert ChunkMap([c]) == map[c.id := ChunkNode(c.tenant, c.page, c.text)];
  }

  lemma EntityStep(items: seq<Item>, x: Item)
    ensures EntityRows([x]) == AddEntities(map[], x.chunk.tenant, x.extraction.entities)
    ensures EntityRows(items + [x]) == EntityRows([x]) + EntityRows(items)
  {
    assert [x][..0] == [] && (items + [x])[..|items|] == items;
    AddEntitiesMerge(EntityRows(items), x.chunk.tenant, x.extraction.entities);
  }

  lemma EdgesAppend(a: seq<MentionRow>, b: seq<MentionRow>)
    ensures EdgesOf(a + b) == EdgesOf(a) + EdgesOf(b)
  {
    forall k | 0 <= k < |a| ensures (a[k].chunk, a[k].entity) in EdgesOf(a + b) { assert (a + b)[k] == a[k]; }
    forall k | 0 <= k < |b| ensures (b[k].chunk, b[k].entity) in EdgesOf(a + b) { assert (a + b)[|a| + k] == b[k]; }
  }

  lemma MentionStep(items: seq<Item>, x: Item)
    ensures MentionRows([x]) == ItemMentions(x)
    ensures AllMentions(items + [x]) == AllMentions(items) + AllMentions([x])
  {
    assert [x][..0] == [] && (items + [x])[..|items|] == items;
    assert MentionRows([x]) == [] + ItemMentions(x) == ItemMentions(x);
    EdgesAppend(MentionRows(items), ItemMentions(x));
  }

  lemma PartOfStep(items: seq<Item>, x: Item)
    ensures PartOfEdges(items + [x]) == PartOfEdges(items) + PartOfEdges([x])
  {
    var all := items + [x];
    forall k | 0 <= k < |items| ensures (items[k].chunk.id, items[k].chunk.document) in PartOfEdges(all) {
      assert all[k] == items[k];
    }
    assert all[|items|] == x;
  }

  lemma RelationStep(items: seq<Item>, x: Item)
    ensures AllRelations(items + [x]) == AllRelations([x]) + AllRelations(items)
  {
    var all := items + [x];
    assert [x][..0] == [] && all[..|items|] == items;
    assert RelationRows([x]) == [] + ItemRelations(x) == ItemRelations(x)
           && RelationRows(all) == RelationRows(items) + RelationRows([x]);
    EntityStep(items, x);
    RelationRowsEnds(items);
    RelationRowsEnds([x]);
    RelationMapAppend(RelationRows(items), RelationRows([x]), EntityRows(all).Keys);
    RelationMapEnds(RelationRows(items), EntityRows(items).Keys, EntityRows(all).Keys);
    RelationMapEnds(RelationRows([x]), EntityRows([x]).Keys, EntityRows(all).Keys);
  }

  function FoldLeft<S, T>(s: S, items: seq<T>, f: (S, T) -> S): S {
    if items == [] then s else f(FoldLeft(s, items[..|items| - 1], f), items[|items| - 1])
  }

  lemma {:induction false} FoldLeftIs<S, T>(s: S, items: seq<T>, f: (S, T) -> S, result: seq<T> -> S)
    requires result([]) == s && forall init, x :: result(init + [x]) == f(result(init), x)
    ensures FoldLeft(s, items, f) == result(items)
  {
    if items != [] {
      var n := |items| - 1;
      FoldLeftIs(s, items[..n], f, result);
      assert result(items[..n] + [items[n]]) == f(result(items[..n]), items[n]);
      assert items == items[..n] + [items[n]];
    }
  }

  /** Main result: one batch, or its chunks one by one in order. */
  lemma BatchIsFold(g: Graph, items: seq<Item>)
    ensures Upsert(g, items) == UpsertEach(g, items)
  {
    UpsertAddsEverything(g, items);
    var added := xs => Added(g, xs);
    NothingAdded(g);
    forall init, x ensures added(init + [x]) == UpsertOne(added(init), x) { FoldStep(g, init, x); }
    FoldLeftIs(g, items, UpsertOne, added);
  }

  lemma NothingAdded(g: Graph)
    ensures Added(g, []) == g
  {
    UpsertAddsEverything(g, []);
  }

  lemma FoldStep(g: Graph, init: seq<Item>, x: Item)
    ensures UpsertOne(Added(g, init), x) == Added(g, init + [x])
  {
    UpsertAddsEverything(Added(g, init), [x]);
    AddedStep(g, init, x);
  }

  lemma MapTwice<K, V>(g: map<K, V>, m: map<K, V>)
    ensures (g + m) + m == g + m && m + (m + g) == m + g
  {
  }

  lemma SetTwice<T>(g: set<T>, m: set<T>)
    ensures (g + m) + m == g + m
  {
  }

  lemma AddedTwice(g: Graph, items: seq<Item>)
    ensures Added(Added(g, items), items) == Added(g, items)
  {
    MapTwice(g.docs, DocMap(DocRows(items)));
    MapTwice(g.chunks, ChunkMap(ChunkRows(items)));
    MapTwice(g.entities, EntityRows(items));
    MapTwice(g.relates, AllRelations(items));
    SetTwice(g.partOf, PartOfEdges(items));
    SetTwice(g.mentions, AllMentions(items));
  }

  /** Running the same batch again changes nothing. */
  lemma UpsertTwiceChangesNothing(g: Graph, items: seq<Item>)
    ensures Upsert(Upsert(g, items), items) == Upsert(g, items)
  {
    UpsertAddsEverything(g, items);
    UpsertAddsEverything(Added(g, items), items);
    AddedTwice(g, items);
  }

  // ---------------------------------------------------------------- whose description stays

  /** Entity `k` of item `i` is the first of the batch under its key. */
  ghost predicate FirstOfBatch(items: seq<Item>, i: nat, k: nat) {
    && i < |items| && k < |items[i].extraction.entities|
    && (forall j, m :: 0 <= j < i && 0 <= m < |items[j].extraction.entities| ==>
         KeyAt(items[j], m) != KeyAt(items[i], k))
    && (forall m :: 0 <= m < k ==> KeyAt(items[i], m) != KeyAt(items[i], k))
  }

  function KeyAt(it: Item, k: nat): EntityKey
    requires k < |it.extraction.entities|
  {
    KeyOf(it.chunk.tenant, it.extraction.entities[k])
  }

  lemma {:induction false} AddEntitiesFirst(rows: map<EntityKey, string>, tenant: Tenant, es: seq<ExtractedEntity>,
                                            k: nat)
    requires k < |es| && KeyOf(tenant, es[k]) !in rows
    requires forall m :: 0 <= m < k ==> KeyOf(tenant, es[m]) != KeyOf(tenant, es[k])
    ensures KeyOf(tenant, es[k]) in AddEntities(rows, tenant, es)
    ensures AddEntities(rows, tenant, es)[KeyOf(tenant, es[k])] == es[k].description
  {
    var n := |es| - 1;
    if k < n { AddEntitiesFirst(rows, tenant, es[..n], k); } else { AddEntitiesKeys(rows, tenant, es[..n]); }
  }

  lemma {:induction false} EntityRowsFrom(items: seq<Item>, key: EntityKey) returns (i: nat, k: nat)
    requires key in EntityRows(items)
    ensures i < |items| && k < |items[i].extraction.entities| && KeyAt(items[i], k) == key
  {
    var n := |items| - 1;
    if key in EntityRows(items[..n]) {
      i, k := EntityRowsFrom(items[..n], key);
    } else {
      var es, tenant := items[n].extraction.entities, items[n].chunk.tenant;
      AddEntitiesKeys(EntityRows(items[..n]), tenant, es);
      i := n;
      k :| 0 <= k < |es| && KeyOf(tenant, es[k]) == key;
    }
  }

  lemma {:induction false} EntityRowsFirst(items: seq<Item>, i: nat, k: nat)
    requires FirstOfBatch(items, i, k)
    ensures KeyAt(items[i], k) in EntityRows(items)
    ensures EntityRows(items)[KeyAt(items[i], k)] == items[i].extraction.entities[k].description
    decreases |items|
  {
    var n, key := |items| - 1, KeyAt(items[i], k);
    var init := items[..n];
    if i < n {
      EntityRowsFirst(init, i, k);
      AddEntitiesMerge(EntityRows(init), items[n].chunk.tenant, items[n].extraction.entities);
    } else {
      NotBefore(items, k);
      var es, tenant := items[n].extraction.entities, items[n].chunk.tenant;
      forall m | 0 <= m < k ensures KeyOf(tenant, es[m]) != KeyOf(tenant, es[k]) { assert KeyAt(items[n], m) != key; }
      AddEntitiesFirst(EntityRows(init), tenant, es, k);
    }
  }

  lemma NotBefore(items: seq<Item>, k: nat)
    requires items != [] && FirstOfBatch(items, |items| - 1, k)
    ensures KeyAt(items[|items| - 1], k) !in EntityRows(items[..|items| - 1])
  {
    var n := |items| - 1;
    if KeyAt(items[n], k) in EntityRows(items[..n]) {
      var j, m := EntityRowsFrom(items[..n], KeyAt(items[n], k));
    }
  }

  /** A description once stored stays; otherwise the first of the batch is stored. */
  lemma FirstDescriptionWins(g: Graph, items: seq<Item>, i: nat, k: nat)
    requires FirstOfBatch(items, i, k)
    ensures var key := KeyAt(items[i], k);
            && key in Upsert(g, items).entities
            && Upsert(g, items).entities[key] ==
                 if key in g.entities then g.entities[key] else items[i].extraction.entities[k].description
    ensures forall r :: r in g.relates ==> r in Upsert(g, items).relates && Upsert(g, items).relates[r] == g.relates[r]
  {
    UpsertAddsEverything(g, items);
    EntityRowsFirst(items, i, k);
  }

  /** A stored relation takes its description from the first row of its key. */
  lemma {:induction false} RelationMapFrom(rows: seq<RelationRow>, entities: set<EntityKey>, key: RelationKey)
    returns (k: nat)
    requires key in RelationMap(rows, entities)
    ensures k < |rows| && rows[k].key == key && rows[k].description == RelationMap(rows, entities)[key]
    ensures forall m :: 0 <= m < k ==> rows[m].key != key
  {
    var n := |rows| - 1;
    if key in RelationMap(rows[..n], entities) {
      k := RelationMapFrom(rows[..n], entities, key);
    } else {
      k := n;
      NotAmong(rows[..n], entities, key);
    }
  }

  lemma {:induction false} NotAmong(rows: seq<RelationRow>, entities: set<EntityKey>, key: RelationKey)
    requires key !in RelationMap(rows, entities) && key.source in entities && key.target in entities
    ensures forall m :: 0 <= m < |rows| ==> rows[m].key != key
  {
    if rows != [] { NotAmong(rows[..|rows| - 1], entities, key); }
  }

  /** The row of a relation of the chunk: its kind and description, its ends named as the reply names them. */
  predicate RowOf(row: RelationRow, tenant: Tenant, r: ExtractedRelation) {
    && row.key.source.tenant == tenant && row.key.target.tenant == tenant
    && row.key.source.name == r.source && row.key.target.name == r.target
    && row.key.kind == r.kind && row.description == r.description
  }

  lemma {:induction false} NamedRelationFrom(tenant: Tenant, types: map<string, string>, rs: seq<ExtractedRelation>,
                                             k: nat)
    returns (j: nat)
    requires k < |NamedRelations(tenant, types, rs)|
    ensures j < |rs| && RowOf(NamedRelations(tenant, types, rs)[k], tenant, rs[j])
  {
    var n := |rs| - 1;
    if k < |NamedRelations(tenant, types, rs[..n])| {
      j := NamedRelationFrom(tenant, types, rs[..n], k);
    } else {
      j := n;
    }
  }

  lemma {:induction false} RelationRowFrom(items: seq<Item>, k: nat) returns (i: nat, j: nat)
    requires k < |RelationRows(items)|
    ensures i < |items| && j < |items[i].extraction.relations|
    ensures RowOf(RelationRows(items)[k], items[i].chunk.tenant, items[i].extraction.relations[j])
  {
    var n := |items| - 1;
    var before := |RelationRows(items[..n])|;
    if k < before {
      i, j := RelationRowFrom(items[..n], k);
    } else {
      i := n;
      j := NamedRelationFrom(items[n].chunk.tenant, TypeOf(items[n].extraction.entities),
                             items[n].extraction.relations, k - before);
    }
  }

  /** Every relation an upsert adds is one of the batch, from its source to its target and described as there. */
  lemma NewRelationFrom(g: Graph, items: seq<Item>, key: RelationKey) returns (i: nat, j: nat)
    requires key in Upsert(g, items).relates && key !in g.relates
    ensures i < |items| && j < |items[i].extraction.relations|
    ensures RowOf(RelationRow(key, Upsert(g, items).relates[key]), items[i].chunk.tenant,
                  items[i].extraction.relations[j])
  {
    UpsertAddsEverything(g, items);
    var k := RelationMapFrom(RelationRows(items), EntityRows(items).Keys, key);
    i, j := RelationRowFrom(items, k);
  }

  // ---------------------------------------------------------------- the order of the document rows

  /** One document id, one tenant and file name. */
  predicate OneNamePerDocument(rows: seq<DocRow>) {
    forall j, k :: 0 <= j < |rows| && 0 <= k < |rows| && rows[j].id == rows[k].id ==> rows[j] == rows[k]
  }

  lemma {:induction false} DocMapGet(rows: seq<DocRow>, k: nat)
    requires OneNamePerDocument(rows) && k < |rows|
    ensures rows[k].id in DocMap(rows) && DocMap(rows)[rows[k].id] == Doc(rows[k].tenant, rows[k].filename)
  {
    var n := |rows| - 1;
    assert rows[n].id == rows[k].id ==> rows[n] == rows[k];
    if k < n && rows[n].id != rows[k].id { DocMapGet(rows[..n], k); }
  }

  lemma SameDocMap(listed: seq<DocRow>, items: seq<Item>)
    requires OneNamePerDocument(DocRows(items)) && SameRows(listed, DocRows(items))
    ensures DocMap(listed) == DocMap(DocRows(items))
  {
    var rows := DocRows(items);
    forall j, k | 0 <= j < |listed| && 0 <= k < |listed| && listed[j].id == listed[k].id
      ensures listed[j] == listed[k]
    {
      assert listed[j] in rows && listed[k] in rows;
    }
    DocMapKeys(listed);
    DocMapKeys(rows);
    forall id | id in DocMap(listed) ensures id in DocMap(rows) && DocMap(rows)[id] == DocMap(listed)[id] {
      var j :| 0 <= j < |listed| && listed[j].id == id;
      assert listed[j] in rows;
      var k :| 0 <= k < |rows| && rows[k] == listed[j];
      DocMapGet(listed, j);
      DocMapGet(rows, k);
    }
    forall id | id in DocMap(rows) ensures id in DocMap(listed) {
      var k :| 0 <= k < |rows| && rows[k].id == id;
      assert rows[k] in listed;
      var j :| 0 <= j < |listed| && listed[j] == rows[k];
      DocMapGet(listed, j);
    }
    assert DocMap(listed) == DocMap(rows);
  }

  lemma RowOrderIrrelevant(g: Graph, listed: seq<DocRow>, items: seq<Item>)
    requires OneNamePerDocument(DocRows(items)) && SameRows(listed, DocRows(items))
    ensures UpsertWith(g, listed, items) == Upsert(g, items)
  {
    SameDocMap(listed, items);
  }

  function NodeOf(c: GraphChunk): ChunkNode { ChunkNode(c.tenant, c.page, Clip(c.text)) }

  lemma {:induction false} ChunkMapAt(items: seq<Item>, k: nat)
    requires k < |items|
    requires forall i, j :: 0 <= i < j < |items| ==> items[i].chunk.id != items[j].chunk.id
    ensures items[k].chunk.id in ChunkMap(ChunkRows(items))
    ensures ChunkMap(ChunkRows(items))[items[k].chunk.id] == NodeOf(items[k].chunk)
  {
    var n := |items| - 1;
    assert ChunkRows(items)[..n] == ChunkRows(items[..n]);
    if k < n { ChunkMapAt(items[..n], k); }
  }

  /** What an upsert stores of a chunk and of its document: tenant, file name, page and the first 500 characters. */
  lemma UpsertStoresFields(g: Graph, items: seq<Item>, k: nat)
    requires k < |items| && OneNamePerDocument(DocRows(items))
    requires forall i, j :: 0 <= i < j < |items| ==> items[i].chunk.id != items[j].chunk.id
    ensures var c, after := items[k].chunk, Upsert(g, items);
            && c.document in after.docs && after.docs[c.document] == Doc(c.tenant, c.filename)
            && c.id in after.chunks
            && after.chunks[c.id] == ChunkNode(c.tenant, c.page, c.text[..Min(500, |c.text|)])
            && (c.id, c.document) in after.partOf
  {
    UpsertAddsEverything(g, items);
    assert DocRows(items)[k] == ToDocRow(items[k].chunk);
    DocMapGet(DocRows(items), k);
    ChunkMapAt(items, k);
    assert items[k].chunk.text[..|items[k].chunk.text|] == items[k].chunk.text;
  }

  // ---------------------------------------------------------------- parsed extractions arrive whole

  lemma {:induction false} ItemMentionIn(items: seq<Item>, i: nat, k: nat)
    requires i < |items| && k < |items[i].extraction.entities|
    ensures (items[i].chunk.id, KeyOf(items[i].chunk.tenant, items[i].extraction.entities[k])) in AllMentions(items)
  {
    var n := |items| - 1;
    assert items == items[..n] + [items[n]];
    MentionStep(items[..n], items[n]);
    if i < n {
      ItemMentionIn(items[..n], i, k);
    } else {
      assert MentionRows([items[n]])[k].chunk == items[i].chunk.id;
    }
  }

  lemma {:induction false} RelationMapHas(rows: seq<RelationRow>, entities: set<EntityKey>, k: nat)
    requires EndsIn(rows, entities) && k < |rows|
    ensures rows[k].key in RelationMap(rows, entities)
  {
    if k < |rows| - 1 { RelationMapHas(rows[..|rows| - 1], entities, k); }
  }

  lemma {:induction false} NamedRelationsHas(tenant: Tenant, types: map<string, string>, rs: seq<ExtractedRelation>,
                                             k: nat)
    returns (j: nat)
    requires k < |rs| && rs[k].source in types && rs[k].target in types
    ensures j < |NamedRelations(tenant, types, rs)|
            && NamedRelations(tenant, types, rs)[j] == ToRelationRow(tenant, types, rs[k])
  {
    var n := |rs| - 1;
    if k < n {
      j := NamedRelationsHas(tenant, types, rs[..n], k);
    } else {
      j := |NamedRelations(tenant, types, rs[..n])|;
    }
  }

  lemma {:induction false} ItemRelationIn(items: seq<Item>, i: nat, j: nat)
    requires i < |items| && j < |ItemRelations(items[i])|
    ensures ItemRelations(items[i])[j].key in AllRelations(items)
  {
    var n := |items| - 1;
    assert items == items[..n] + [items[n]];
    RelationStep(items[..n], items[n]);
    if i < n {
      ItemRelationIn(items[..n], i, j);
    } else {
      assert [items[n]][..0] == [] && RelationRows([items[n]]) == ItemRelations(items[n]);
      RelationRowsEnds([items[n]]);
      RelationMapHas(RelationRows([items[n]]), EntityRows([items[n]]).Keys, j);
    }
  }

  predicate MentionsArrived(it: Item, g: Graph) {
    forall k :: 0 <= k < |it.extraction.entities| ==>
      var e := it.extraction.entities[k];
      (it.chunk.id, EntityKey(it.chunk.tenant, e.name, e.kind)) in g.mentions
  }

  function JoiningKey(it: Item, k: nat, s: nat, t: nat): RelationKey
    requires k < |it.extraction.relations| && s < |it.extraction.entities| && t < |it.extraction.entities|
  {
    var from, to := it.extraction.entities[s], it.extraction.entities[t];
    RelationKey(EntityKey(it.chunk.tenant, from.name, from.kind), EntityKey(it.chunk.tenant, to.name, to.kind),
                it.extraction.relations[k].kind)
  }

  /** Relation `k` of the extraction has ends among its entities and is an edge of the graph. */
  predicate RelationArrived(it: Item, g: Graph, k: nat)
    requires k < |it.extraction.relations|
  {
    exists s, t :: 0 <= s < |it.extraction.entities| && 0 <= t < |it.extraction.entities|
                   && Joins(it.extraction, k, s, t) && JoiningKey(it, k, s, t) in g.relates
  }

  /** Every entity and every relation of a parsed extraction is an edge of the graph afterwards. */
  lemma ParsedExtractionArrives(g: Graph, items: seq<Item>, i: nat)
    requires i < |items| && WellFormed(items[i].extraction)
    ensures MentionsArrived(items[i], Upsert(g, items))
    ensures forall k :: 0 <= k < |items[i].extraction.relations| ==> RelationArrived(items[i], Upsert(g, items), k)
  {
    UpsertAddsEverything(g, items);
    var it := items[i];
    forall k | 0 <= k < |it.extraction.entities|
      ensures (it.chunk.id, KeyOf(it.chunk.tenant, it.extraction.entities[k])) in Added(g, items).mentions
    {
      ItemMentionIn(items, i, k);
    }
    forall k | 0 <= k < |it.extraction.relations| ensures RelationArrived(it, Added(g, items), k) {
      assert Closed(it.extraction.relations[k], it.extraction.entities);
      var s :| 0 <= s < |it.extraction.entities| && it.extraction.entities[s].name == it.extraction.relations[k].source;
      var t :| 0 <= t < |it.extraction.entities| && it.extraction.entities[t].name == it.extraction.relations[k].target;
      RelationArrives(items, i, k, s, t);
      assert JoiningKey(it, k, s, t) in Added(g, items).relates;
    }
  }

  /** Relation `k` leads from entity `s` to entity `t` of the extraction. */
  predicate Joins(x: ChunkExtraction, k: nat, s: int, t: int)
    requires k < |x.relations|
  {
    && 0 <= s < |x.entities| && 0 <= t < |x.entities|
    && x.entities[s].name == x.relations[k].source && x.entities[t].name == x.relations[k].target
  }

  lemma RelationArrives(items: seq<Item>, i: nat, k: nat, s: nat, t: nat)
    requires i < |items| && WellFormed(items[i].extraction)
    requires k < |items[i].extraction.relations| && Joins(items[i].extraction, k, s, t)
    ensures JoiningKey(items[i], k, s, t) in AllRelations(items)
  {
    var it := items[i];
    var es, rs := it.extraction.entities, it.extraction.relations;
    TypeOfHas(es, s);
    TypeOfHas(es, t);
    var s' := TypeOfNames(es, rs[k].source);
    var t' := TypeOfNames(es, rs[k].target);
    assert s' == s && t' == t;
    var j := NamedRelationsHas(it.chunk.tenant, TypeOf(es), rs, k);
    ItemRelationIn(items, i, j);
  }
}
