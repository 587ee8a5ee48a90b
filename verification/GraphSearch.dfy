/** Local search over the graph (app/retrieve/graph.py) and how deletion and cleanup bear on it. */
module GraphSearch {
  import opened Graph
  import opened GraphInv
  import opened Sets

  // ---------------------------------------------------------------- the query

  /** The entities of the tenant the question matches; `seeds` is the WHERE clause on the name. */
  predicate IsSeed(g: Graph, tenant: Tenant, seeds: string -> bool, e: EntityKey) {
    e in g.entities && e.tenant == tenant && seeds(e.name)
  }

  ghost predicate Adjacent(g: Graph, a: EntityKey, b: EntityKey) {
    exists k :: k in g.relates && ((k.source == a && k.target == b) || (k.source == b && k.target == a))
  }

  /** Seeds and their neighbours at one RELATES_TO hop, either way. */
  ghost predicate InScope(g: Graph, tenant: Tenant, seeds: string -> bool, e: EntityKey) {
    && e in g.entities && e.tenant == tenant
    && (seeds(e.name) || exists s :: IsSeed(g, tenant, seeds, s) && Adjacent(g, s, e))
  }

  ghost function Matched(g: Graph, tenant: Tenant, seeds: string -> bool, chunk: Id): set<EntityKey> {
    set e | e in g.entities && InScope(g, tenant, seeds, e) && (chunk, e) in g.mentions
  }

  /** count(DISTINCT e). */
  ghost function Score(g: Graph, tenant: Tenant, seeds: string -> bool, chunk: Id): nat {
    |Matched(g, tenant, seeds, chunk)|
  }

  /** The (chunk, document) rows of the query before LIMIT, with their scores. */
  ghost function Hits(g: Graph, tenant: Tenant, seeds: string -> bool): map<(Id, Id), nat> {
    map e | e in g.partOf && e.1 in g.docs && g.docs[e.1].tenant == tenant && Score(g, tenant, seeds, e.0) > 0
      :: Score(g, tenant, seeds, e.0)
  }

  datatype Row = Row(chunk: Id, document: Id, score: nat)

  /** A list the engine may return before LIMIT: every hit once, by descending score, ties in any order. */
  ghost predicate IsRanking(rows: seq<Row>, hits: map<(Id, Id), nat>) {
    && (forall k :: 0 <= k < |rows| ==> IsHit(rows[k], hits))
    && (forall e :: e in hits ==> Listed(rows, e))
    && Ordered(rows)
  }

  /** Descending scores, no row twice. */
  predicate Ordered(rows: seq<Row>) {
    forall j, k :: 0 <= j < k < |rows| ==> rows[j].score >= rows[k].score && !SameHit(rows[j], rows[k])
  }

  ghost predicate IsHit(r: Row, hits: map<(Id, Id), nat>) {
    (r.chunk, r.document) in hits && hits[(r.chunk, r.document)] == r.score
  }

  predicate SameHit(a: Row, b: Row) { a.chunk == b.chunk && a.document == b.document }

  ghost predicate Listed(rows: seq<Row>, e: (Id, Id)) {
    exists k :: 0 <= k < |rows| && rows[k].chunk == e.0 && rows[k].document == e.1
  }

  // ---------------------------------------------------------------- deleting a document

  function Without(rows: seq<Row>, document: Id): seq<Row> {
    if rows == [] then []
    else
      var before, r := Without(rows[..|rows| - 1], document), rows[|rows| - 1];
      if r.document == document then before else before + [r]
  }

  lemma MatchedAfterDelete(g: Graph, tenant: Tenant, document: Id, seeds: string -> bool, asker: Tenant, chunk: Id)
    requires Sound(g)
    requires (chunk, document) !in g.partOf
    ensures Matched(DeleteDocument(g, tenant, document), asker, seeds, chunk) == Matched(g, asker, seeds, chunk)
  {
    var after := DeleteDocument(g, tenant, document);
    forall e ensures InScope(after, asker, seeds, e) == InScope(g, asker, seeds, e) {
      forall s
        ensures IsSeed(after, asker, seeds, s) == IsSeed(g, asker, seeds, s)
        ensures Adjacent(after, s, e) == Adjacent(g, s, e)
      {
      }
    }
  }

  lemma OtherEdgeStays(g: Graph, tenant: Tenant, document: Id, seeds: string -> bool, asker: Tenant, e: (Id, Id))
    requires Sound(g) && e in g.partOf && e.1 != document
    ensures e in DeleteDocument(g, tenant, document).partOf
    ensures Score(DeleteDocument(g, tenant, document), asker, seeds, e.0) == Score(g, asker, seeds, e.0)
  {
    assert (e.0, document) in g.partOf ==> e.1 == (e.0, document).1;
    MatchedAfterDelete(g, tenant, document, seeds, asker, e.0);
  }

  /** For every question of every tenant, deletion removes the document's rows; the others keep their scores. */
  lemma DeleteRemovesOnlyItsHits(g: Graph, tenant: Tenant, document: Id, seeds: string -> bool, asker: Tenant)
    requires Sound(g) && document in g.docs && g.docs[document].tenant == tenant
    ensures var before, after := Hits(g, asker, seeds), Hits(DeleteDocument(g, tenant, document), asker, seeds);
            after == map e | e in before && e.1 != document :: before[e]
  {
    var next := DeleteDocument(g, tenant, document);
    var before, after := Hits(g, asker, seeds), Hits(next, asker, seeds);
    forall e | e in before && e.1 != document ensures e in after && after[e] == before[e] {
      OtherEdgeStays(g, tenant, document, seeds, asker, e);
    }
    forall e | e in after ensures e in before && e.1 != document {
      EdgeWasThere(g, tenant, document, seeds, asker, e);
    }
  }

  lemma EdgeWasThere(g: Graph, tenant: Tenant, document: Id, seeds: string -> bool, asker: Tenant, e: (Id, Id))
    requires Sound(g) && e in Hits(DeleteDocument(g, tenant, document), asker, seeds)
    requires document in g.docs && g.docs[document].tenant == tenant
    ensures e.1 != document && e in Hits(g, asker, seeds)
  {
    OtherEdgeStays(g, tenant, document, seeds, asker, e);
  }

  lemma {:induction false} WithoutRows(rows: seq<Row>, document: Id)
    ensures forall k :: 0 <= k < |Without(rows, document)| ==>
              Without(rows, document)[k].document != document && Without(rows, document)[k] in rows
    ensures forall k :: 0 <= k < |rows| && rows[k].document != document ==> rows[k] in Without(rows, document)
  {
    if rows != [] {
      WithoutRows(rows[..|rows| - 1], document);
      var before, w := Without(rows[..|rows| - 1], document), Without(rows, document);
      forall k | 0 <= k < |rows| && rows[k].document != document ensures rows[k] in w {
        if k < |rows| - 1 {
          assert rows[..|rows| - 1][k] in before;
        } else {
          assert w[|before|] == rows[k];
        }
      }
    }
  }

  lemma {:induction false} WithoutOrdered(rows: seq<Row>, document: Id)
    requires Ordered(rows)
    ensures Ordered(Without(rows, document))
  {
    if rows != [] {
      var init, r := rows[..|rows| - 1], rows[|rows| - 1];
      WithoutOrdered(init, document);
      WithoutRows(init, document);
      var before := Without(init, document);
      forall k | 0 <= k < |before| ensures before[k].score >= r.score && !SameHit(before[k], r) {
        var j :| 0 <= j < |init| && init[j] == before[k];
        assert rows[j] == init[j];
      }
    }
  }

  /** Main result: any ranking before the deletion, with the document's rows crossed out, is a ranking after it. */
  lemma RankingAfterDelete(g: Graph, tenant: Tenant, document: Id, seeds: string -> bool, asker: Tenant, rows: seq<Row>)
    requires Sound(g) && document in g.docs && g.docs[document].tenant == tenant
    requires IsRanking(rows, Hits(g, asker, seeds))
    ensures IsRanking(Without(rows, document), Hits(DeleteDocument(g, tenant, document), asker, seeds))
  {
    DeleteRemovesOnlyItsHits(g, tenant, document, seeds, asker);
    WithoutRows(rows, document);
    WithoutOrdered(rows, document);
    var before, after := Hits(g, asker, seeds), Hits(DeleteDocument(g, tenant, document), asker, seeds);
    var w := Without(rows, document);
    forall k | 0 <= k < |w| ensures IsHit(w[k], after) {
      var j :| 0 <= j < |rows| && rows[j] == w[k];
      assert IsHit(rows[j], before);
    }
    forall e | e in after ensures Listed(w, e) { StillListed(rows, document, e); }
  }

  lemma StillListed(rows: seq<Row>, document: Id, e: (Id, Id))
    requires Listed(rows, e) && e.1 != document
    ensures Listed(Without(rows, document), e)
  {
    WithoutRows(rows, document);
    var w := Without(rows, document);
    var j :| 0 <= j < |rows| && rows[j].chunk == e.0 && rows[j].document == e.1;
    assert rows[j] in w;
    var k :| 0 <= k < |w| && w[k] == rows[j];
  }

  // ---------------------------------------------------------------- deleting orphans

  predicate Orphan(g: Graph, e: EntityKey) {
    e in g.entities && forall m :: m in g.mentions ==> m.1 != e
  }

  predicate AllOrphans(g: Graph, victims: set<EntityKey>) {
    forall e :: e in victims ==> Orphan(g, e)
  }

  /** A live entity in reach of the question only through deleted seeds. */
  ghost predicate Stranded(g: Graph, victims: set<EntityKey>, tenant: Tenant, seeds: string -> bool, e: EntityKey) {
    && InScope(g, tenant, seeds, e) && e !in victims && !seeds(e.name)
    && forall s :: IsSeed(g, tenant, seeds, s) && Adjacent(g, s, e) ==> s in victims
  }

  /** Some row of the query counts a stranded entity. */
  ghost predicate Visible(g: Graph, victims: set<EntityKey>, tenant: Tenant, seeds: string -> bool) {
    exists p, e :: p in Hits(g, tenant, seeds) && Stranded(g, victims, tenant, seeds, e) && (p.0, e) in g.mentions
  }

  lemma AdjacentAfterCleanup(g: Graph, victims: set<EntityKey>, a: EntityKey, b: EntityKey)
    ensures Adjacent(DeleteEntities(g, victims), a, b) <==> Adjacent(g, a, b) && a !in victims && b !in victims
  {
    var after := DeleteEntities(g, victims);
    if Adjacent(g, a, b) && a !in victims && b !in victims {
      var k :| k in g.relates && ((k.source == a && k.target == b) || (k.source == b && k.target == a));
      assert k in after.relates;
    }
  }

  lemma ScopeAfterCleanup(g: Graph, victims: set<EntityKey>, tenant: Tenant, seeds: string -> bool, e: EntityKey)
    ensures InScope(DeleteEntities(g, victims), tenant, seeds, e) <==>
            InScope(g, tenant, seeds, e) && e !in victims && !Stranded(g, victims, tenant, seeds, e)
  {
    var after := DeleteEntities(g, victims);
    forall s ensures IsSeed(after, tenant, seeds, s) <==> IsSeed(g, tenant, seeds, s) && s !in victims {}
    forall s ensures Adjacent(after, s, e) <==> Adjacent(g, s, e) && s !in victims && e !in victims {
      AdjacentAfterCleanup(g, victims, s, e);
    }
  }

  /** Exactly the stranded entities stop counting. */
  lemma MatchedAfterCleanup(g: Graph, victims: set<EntityKey>, tenant: Tenant, seeds: string -> bool, chunk: Id)
    requires AllOrphans(g, victims)
    ensures Matched(DeleteEntities(g, victims), tenant, seeds, chunk)
         == set e | e in Matched(g, tenant, seeds, chunk) && !Stranded(g, victims, tenant, seeds, e)
  {
    var after := DeleteEntities(g, victims);
    forall e ensures e in Matched(after, tenant, seeds, chunk) <==>
                     e in Matched(g, tenant, seeds, chunk) && !Stranded(g, victims, tenant, seeds, e)
    {
      ScopeAfterCleanup(g, victims, tenant, seeds, e);
      assert (chunk, e) in g.mentions ==> !Orphan(g, e) by { assert (chunk, e).1 == e; }
    }
  }

  lemma CleanupOnlyLowersScores(g: Graph, victims: set<EntityKey>, tenant: Tenant, seeds: string -> bool, chunk: Id)
    requires AllOrphans(g, victims)
    ensures Score(DeleteEntities(g, victims), tenant, seeds, chunk) <= Score(g, tenant, seeds, chunk)
  {
    MatchedAfterCleanup(g, victims, tenant, seeds, chunk);
    SubsetSize(Matched(DeleteEntities(g, victims), tenant, seeds, chunk), Matched(g, tenant, seeds, chunk));
  }

  /** Main result: cleanup is invisible to a question exactly when no row counts a stranded entity. */
  lemma CleanupInvisibleIff(g: Graph, victims: set<EntityKey>, tenant: Tenant, seeds: string -> bool)
    requires AllOrphans(g, victims)
    ensures Hits(DeleteEntities(g, victims), tenant, seeds) == Hits(g, tenant, seeds)
            <==> !Visible(g, victims, tenant, seeds)
  {
    var after := DeleteEntities(g, victims);
    if Visible(g, victims, tenant, seeds) {
      var p, e :| p in Hits(g, tenant, seeds) && Stranded(g, victims, tenant, seeds, e) && (p.0, e) in g.mentions;
      MatchedAfterCleanup(g, victims, tenant, seeds, p.0);
      var fewer, more := Matched(after, tenant, seeds, p.0), Matched(g, tenant, seeds, p.0);
      assert e in more && e !in fewer;
      SubsetSize(fewer, more);
      if p in Hits(after, tenant, seeds) {
        assert Hits(after, tenant, seeds)[p] == |fewer| < |more| == Hits(g, tenant, seeds)[p];
      }
    } else {
      forall p | p in g.partOf && p.1 in g.docs && g.docs[p.1].tenant == tenant
        ensures Score(after, tenant, seeds, p.0) == Score(g, tenant, seeds, p.0)
      {
        UnseenScore(g, victims, tenant, seeds, p);
      }
      assert Hits(after, tenant, seeds) == Hits(g, tenant, seeds);
    }
  }

  lemma UnseenScore(g: Graph, victims: set<EntityKey>, tenant: Tenant, seeds: string -> bool, p: (Id, Id))
    requires AllOrphans(g, victims) && !Visible(g, victims, tenant, seeds)
    requires p in g.partOf && p.1 in g.docs && g.docs[p.1].tenant == tenant
    ensures Score(DeleteEntities(g, victims), tenant, seeds, p.0) == Score(g, tenant, seeds, p.0)
  {
    MatchedAfterCleanup(g, victims, tenant, seeds, p.0);
    var more := Matched(g, tenant, seeds, p.0);
    forall e | e in more ensures !Stranded(g, victims, tenant, seeds, e) {
      SubsetSize({e}, more);
      assert p in Hits(g, tenant, seeds);
    }
    assert Matched(DeleteEntities(g, victims), tenant, seeds, p.0) == more;
  }

  /** In particular when no deleted entity is a seed of the question. */
  lemma NoSeedDeletedInvisible(g: Graph, victims: set<EntityKey>, tenant: Tenant, seeds: string -> bool)
    requires AllOrphans(g, victims)
    requires forall e :: e in victims ==> !IsSeed(g, tenant, seeds, e)
    ensures Hits(DeleteEntities(g, victims), tenant, seeds) == Hits(g, tenant, seeds)
  {
    CleanupInvisibleIff(g, victims, tenant, seeds);
  }

  // ---------------------------------------------------------------- it can be visible

  const BOSS := EntityKey("t", "boss", "PERSON")
  const FIRM := EntityKey("t", "firm", "ORG")

  /** The boss is mentioned nowhere any more; the firm she runs still is. */
  const LEFTOVER := Graph(
    map["d" := Doc("t", "f")], map["c" := ChunkNode("t", 1, "x")], map[BOSS := "", FIRM := ""],
    {("c", "d")}, {("c", FIRM)}, map[RelationKey(BOSS, FIRM, "runs") := ""])

  predicate IsBoss(name: string) { name == "boss" }

  lemma FirmStranded()
    ensures Sound(LEFTOVER) && AllOrphans(LEFTOVER, {BOSS})
    ensures Stranded(LEFTOVER, {BOSS}, "t", IsBoss, FIRM)
  {
    var edge := RelationKey(BOSS, FIRM, "runs");
    assert edge in LEFTOVER.relates && edge.source == BOSS && edge.target == FIRM;
    assert Adjacent(LEFTOVER, BOSS, FIRM);
    assert IsSeed(LEFTOVER, "t", IsBoss, BOSS);
    assert FIRM.name[0] != BOSS.name[0];
  }

  /** Deleting an orphan seed takes its mentioned neighbour out of the answer. */
  lemma CleanupCanBeVisible()
    ensures Sound(LEFTOVER) && AllOrphans(LEFTOVER, {BOSS})
    ensures Hits(DeleteEntities(LEFTOVER, {BOSS}), "t", IsBoss) != Hits(LEFTOVER, "t", IsBoss)
  {
    FirmStranded();
    assert FIRM in Matched(LEFTOVER, "t", IsBoss, "c");
    SubsetSize({FIRM}, Matched(LEFTOVER, "t", IsBoss, "c"));
    assert ("c", "d") in LEFTOVER.partOf && ("c", "d").1 in LEFTOVER.docs;
    assert ("c", "d") in Hits(LEFTOVER, "t", IsBoss);
    assert Visible(LEFTOVER, {BOSS}, "t", IsBoss);
    CleanupInvisibleIff(LEFTOVER, {BOSS}, "t", IsBoss);
  }
}
