/** Orphan entity cleanup (app/workers/cleanup.py). */
module Cleanup {
  import opened Numbers
  import opened Options
  import opened Graph
  import opened GraphSearch
  import opened Sets
  import opened UpsertProofs

  predicate InTenant(scope: Option<Tenant>, e: EntityKey) {
    scope.None? || e.tenant == scope.value
  }

  /** The entities a scan of the tenant (or of all tenants) matches. */
  function Orphans(g: Graph, scope: Option<Tenant>): set<EntityKey> {
    set e | e in g.entities && InTenant(scope, e) && Orphan(g, e)
  }

  /** `LIMIT`: the engine picks any orphans, as many as allowed. */
  predicate Picked(victims: set<EntityKey>, g: Graph, scope: Option<Tenant>, limit: nat) {
    victims <= Orphans(g, scope) && |victims| == Min(limit, |Orphans(g, scope)|)
  }

  /** What belongs to other tenants, entities and relations, is as it was. */
  ghost predicate OthersKept(before: Graph, after: Graph, tenant: Tenant) {
    && (forall e :: e in before.entities && e.tenant != tenant ==>
          e in after.entities && after.entities[e] == before.entities[e])
    && (forall k :: k in before.relates && k.source.tenant != tenant && k.target.tenant != tenant ==>
          k in after.relates && after.relates[k] == before.relates[k])
  }

  /** A cleanup of one tenant deletes unmentioned entities of that tenant only. */
  lemma OtherTenantsUntouched(g: Graph, victims: set<EntityKey>, tenant: Tenant, limit: nat)
    requires Picked(victims, g, Some(tenant), limit)
    ensures OthersKept(g, DeleteEntities(g, victims), tenant)
    ensures forall e :: e in g.entities && e !in DeleteEntities(g, victims).entities ==>
              e.tenant == tenant && forall m :: m in g.mentions ==> m.1 != e
  {
    forall e | e in victims ensures e.tenant == tenant && forall m :: m in g.mentions ==> m.1 != e {
      assert e in Orphans(g, Some(tenant));
    }
  }

  // ---------------------------------------------------------------- the program

  datatype Summary = Summary(dryRun: bool, scanned: nat, affected: nat, sample: seq<EntityKey>)

  method Pick(g: Graph, scope: Option<Tenant>, limit: nat) returns (rows: seq<EntityKey>, victims: set<EntityKey>)
    ensures Picked(victims, g, scope, limit)
    ensures |rows| == |victims| && forall e :: e in rows <==> e in victims
  {
    var all := Orphans(g, scope);
    var left := all;
    rows, victims := [], {};
    while |rows| < limit && left != {}
      invariant left <= all && victims == all - left
      invariant |rows| == |victims| <= limit && |victims| + |left| == |all|
      invariant forall e :: e in rows <==> e in victims
      decreases left
    {
      var e :| e in left;
      assert |left - {e}| == |left| - 1;
      rows, victims, left := rows + [e], victims + {e}, left - {e};
    }
  }

  /** The scan and the delete are two statements: `meanwhile` is what other writers do in between. */
  method Run(store: GraphStore, dryRun: bool, scope: Option<Tenant>, limit: nat, meanwhile: Graph -> Graph)
    returns (summary: Summary)
    modifies store
    ensures dryRun ==> store.g == old(store.g)
    ensures !dryRun ==>
              exists victims :: Picked(victims, meanwhile(old(store.g)), scope, limit)
                                && store.g == DeleteEntities(meanwhile(old(store.g)), victims)
    ensures !dryRun && scope.Some? ==> OthersKept(meanwhile(old(store.g)), store.g, scope.value)
    ensures summary.dryRun == dryRun
    ensures summary.scanned == Min(limit, |Orphans(old(store.g), scope)|)
    ensures summary.affected ==
              Min(limit, |Orphans(if dryRun then old(store.g) else meanwhile(old(store.g)), scope)|)
    ensures |summary.sample| == Min(20, summary.scanned)
    ensures forall e :: e in summary.sample ==> e in Orphans(old(store.g), scope)
  {
    ghost var g0 := store.g;
    var rows, scanned := Pick(store.g, scope, limit);
    var sample := if |rows| <= 20 then rows else rows[..20];
    forall e | e in sample ensures e in Orphans(g0, scope) { assert e in rows; }
    if dryRun {
      return Summary(true, |rows|, |rows|, sample);
    }
    store.g := meanwhile(store.g);
    var _, victims := Pick(store.g, scope, limit);
    store.g := DeleteEntities(store.g, victims);
    if scope.Some? { OtherTenantsUntouched(meanwhile(g0), victims, scope.value, limit); }
    assert Picked(victims, meanwhile(g0), scope, limit) && store.g == DeleteEntities(meanwhile(g0), victims);
    summary := Summary(false, |rows|, |victims|, sample);
  }

  // ---------------------------------------------------------------- what a cleanup leaves behind

  /** No new orphan in any scope, nothing mentioned is touched, and entities are conserved. */
  lemma CleanupRemovesJustTheVictims(g: Graph, victims: set<EntityKey>, scope: Option<Tenant>)
    requires AllOrphans(g, victims)
    ensures var after := DeleteEntities(g, victims);
            && Orphans(after, scope) == Orphans(g, scope) - victims
            && |after.entities| + |victims| == |g.entities|
            && after.mentions == g.mentions && after.partOf == g.partOf
            && after.docs == g.docs && after.chunks == g.chunks
  {
    var after := DeleteEntities(g, victims);
    forall m | m in g.mentions ensures m.1 !in victims {
      assert m.1 in victims ==> Orphan(g, m.1);
    }
    assert after.mentions == g.mentions;
    forall e ensures e in Orphans(after, scope) <==> e in Orphans(g, scope) - victims {}
    assert after.entities.Keys == g.entities.Keys - victims;
    assert victims <= g.entities.Keys by {
      forall e | e in victims ensures e in g.entities { assert Orphan(g, e); }
    }
    SizeMinus(g.entities.Keys, victims);
  }

  /** With room for all of them, no entity of the scope is left without a mention. */
  lemma CleanupClearsScope(g: Graph, victims: set<EntityKey>, scope: Option<Tenant>, limit: nat)
    requires Picked(victims, g, scope, limit) && limit >= |g.entities|
    ensures var after := DeleteEntities(g, victims);
            forall e :: e in after.entities && (scope.Some? ==> e.tenant == scope.value) ==>
              exists m :: m in after.mentions && m.1 == e
  {
    assert Orphans(g, scope) <= g.entities.Keys;
    SubsetSize(Orphans(g, scope), g.entities.Keys);
    SubsetSize(victims, Orphans(g, scope));
    var after := DeleteEntities(g, victims);
    forall e | e in after.entities && (scope.Some? ==> e.tenant == scope.value)
      ensures exists m :: m in after.mentions && m.1 == e
    {
      assert e !in Orphans(g, scope) && !Orphan(g, e);
      var m :| m in g.mentions && m.1 == e;
      assert m in after.mentions;
    }
  }

  /** Successive applies, each with the orphans it happened to pick. */
  predicate Applies(g: Graph, runs: seq<set<EntityKey>>, scope: Option<Tenant>, limit: nat)
    decreases |runs|
  {
    runs == [] || (Picked(runs[0], g, scope, limit) && Applies(DeleteEntities(g, runs[0]), runs[1..], scope, limit))
  }

  function AfterRuns(g: Graph, runs: seq<set<EntityKey>>): Graph
    decreases |runs|
  {
    if runs == [] then g else AfterRuns(DeleteEntities(g, runs[0]), runs[1..])
  }

  /** What `runs` applies leave of `n` orphans. */
  function Remaining(n: nat, runs: nat, limit: nat): nat {
    if runs * limit >= n then 0 else n - runs * limit
  }

  lemma RemainingStep(n: nat, runs: nat, limit: nat)
    requires runs >= 1
    ensures Remaining(n - Min(limit, n), runs - 1, limit) == Remaining(n, runs, limit)
  {
    assert runs * limit == (runs - 1) * limit + limit;
    assert (runs - 1) * limit >= 0;
  }

  lemma {:induction false} OrphansAfterRuns(g: Graph, runs: seq<set<EntityKey>>, scope: Option<Tenant>, limit: nat)
    requires Applies(g, runs, scope, limit)
    ensures |Orphans(AfterRuns(g, runs), scope)| == Remaining(|Orphans(g, scope)|, |runs|, limit)
    decreases |runs|
  {
    if runs != [] {
      OneApply(g, runs[0], scope, limit);
      OrphansAfterRuns(DeleteEntities(g, runs[0]), runs[1..], scope, limit);
      RemainingStep(|Orphans(g, scope)|, |runs|, limit);
    }
  }

  lemma OneApply(g: Graph, victims: set<EntityKey>, scope: Option<Tenant>, limit: nat)
    requires Picked(victims, g, scope, limit)
    ensures |Orphans(DeleteEntities(g, victims), scope)| == |Orphans(g, scope)| - Min(limit, |Orphans(g, scope)|)
  {
    CleanupRemovesJustTheVictims(g, victims, scope);
    SizeMinus(Orphans(g, scope), victims);
  }

  lemma CeilingIff(n: nat, k: nat, limit: nat)
    requires limit >= 1
    ensures k * limit >= n <==> k >= (n + limit - 1) / limit
  {
    var c := (n + limit - 1) / limit;
    assert n + limit - 1 == limit * c + (n + limit - 1) % limit;
    if k >= c {
      MulMonotone(c, k, limit);
    } else {
      MulMonotone(k + 1, c, limit);
      assert (k + 1) * limit == k * limit + limit;
    }
  }

  /** Main result: n orphans are gone after exactly ceil(n / limit) applies, whatever each one picks. */
  lemma OrphansGoneAfterCeiling(g: Graph, runs: seq<set<EntityKey>>, scope: Option<Tenant>, limit: nat)
    requires limit >= 1 && Applies(g, runs, scope, limit)
    ensures Orphans(AfterRuns(g, runs), scope) == {} <==> |runs| >= (|Orphans(g, scope)| + limit - 1) / limit
  {
    OrphansAfterRuns(g, runs, scope, limit);
    CeilingIff(|Orphans(g, scope)|, |runs|, limit);
  }

  // ---------------------------------------------------------------- a cleanup in the middle of an upsert

  /** A cleanup of `victims` between an upsert's entity statement and its mention and relation statements. */
  function CleanedMidUpsert(g: Graph, items: seq<Item>, victims: set<EntityKey>): Graph {
    var cleaned := DeleteEntities(MergeEntities(g, EntityRows(items)), victims);
    MergeRelations(MergeMentions(cleaned, MentionRows(items)), RelationRows(items))
  }

  function WithoutEnds(relations: map<RelationKey, string>, victims: set<EntityKey>): map<RelationKey, string> {
    map k | k in relations && k.source !in victims && k.target !in victims :: relations[k]
  }

  /**
   * The entities of an upsert are orphans until its mention statement runs. A cleanup in between
   * costs the upsert exactly what it says about the entities deleted: their mentions, and the
   * relations they are an end of.
   */
  lemma CleanupMidUpsertCosts(g: Graph, items: seq<Item>, victims: set<EntityKey>)
    requires ChunkIds(items) <= g.chunks.Keys && AllOrphans(MergeEntities(g, EntityRows(items)), victims)
    ensures var late := CleanedMidUpsert(g, items, victims);
            && late.mentions == g.mentions + set m | m in AllMentions(items) && m.1 !in victims
            && late.relates == WithoutEnds(AllRelations(items), victims) + WithoutEnds(g.relates, victims)
            && late.entities == (EntityRows(items) + g.entities) - victims
            && late.chunks == g.chunks && late.docs == g.docs && late.partOf == g.partOf
  {
    var all := EntityRows(items) + g.entities;
    OrphansDeleted(MergeEntities(g, EntityRows(items)), victims);
    MentionsLate(items, g.chunks.Keys, all.Keys, victims);
    RelationsLate(g, items, victims);
    assert (all - victims).Keys == all.Keys - victims;
  }

  lemma OrphansDeleted(g: Graph, victims: set<EntityKey>)
    requires AllOrphans(g, victims)
    ensures DeleteEntities(g, victims)
         == g.(entities := g.entities - victims, relates := WithoutEnds(g.relates, victims))
  {
    CleanupRemovesJustTheVictims(g, victims, None);
  }

  lemma MentionsLate(items: seq<Item>, chunks: set<Id>, entities: set<EntityKey>, victims: set<EntityKey>)
    requires ChunkIds(items) <= chunks && EntityRows(items).Keys <= entities
    ensures MentionEdges(MentionRows(items), chunks, entities - victims)
         == set m | m in AllMentions(items) && m.1 !in victims
  {
    MentionRowsEnds(items);
    EdgesWithout(MentionRows(items), chunks, entities, victims);
  }

  lemma RelationsLate(g: Graph, items: seq<Item>, victims: set<EntityKey>)
    ensures RelationMap(RelationRows(items), (EntityRows(items) + g.entities).Keys - victims)
         == WithoutEnds(AllRelations(items), victims)
  {
    var all := (EntityRows(items) + g.entities).Keys;
    RelationRowsEnds(items);
    RelationMapEnds(RelationRows(items), EntityRows(items).Keys, all);
    RelationsWithout(RelationRows(items), all, victims);
  }

  /** Rows with a deleted end find no match; the others are merged as before. */
  lemma {:induction false} RelationsWithout(rows: seq<RelationRow>, entities: set<EntityKey>, victims: set<EntityKey>)
    ensures RelationMap(rows, entities - victims) == WithoutEnds(RelationMap(rows, entities), victims)
  {
    if rows != [] { RelationsWithout(rows[..|rows| - 1], entities, victims); }
  }

  lemma EdgesWithout(rows: seq<MentionRow>, chunks: set<Id>, entities: set<EntityKey>, victims: set<EntityKey>)
    requires MentionsIn(rows, chunks, entities)
    ensures MentionEdges(rows, chunks, entities - victims) == set m | m in EdgesOf(rows) && m.1 !in victims
  {
    forall k | 0 <= k < |rows|
      ensures rows[k].entity in entities - victims <==> (rows[k].chunk, rows[k].entity).1 !in victims
    {
    }
  }
}
