/** What the local search finds (app/retrieve/graph.py), in terms of the edges of the graph. */
module OneHop {
  import opened Graph
  import opened GraphInv
  import opened GraphSearch

  /** A seed, or an entity joined to a seed by a relation that leads to it or away from it. */
  ghost predicate Reached(g: Graph, seeds: string -> bool, e: EntityKey) {
    || seeds(e.name)
    || exists k :: k in g.relates
                   && ((k.source == e && seeds(k.target.name)) || (k.target == e && seeds(k.source.name)))
  }

  /** The entities of the tenant a chunk mentions that are reached. */
  ghost function ReachedMentions(g: Graph, tenant: Tenant, seeds: string -> bool, chunk: Id): set<EntityKey> {
    set m | m in g.mentions && m.0 == chunk && m.1.tenant == tenant && Reached(g, seeds, m.1) :: m.1
  }

  lemma InScopeIff(g: Graph, tenant: Tenant, seeds: string -> bool, e: EntityKey)
    requires RelatesOk(g) && e in g.entities
    ensures InScope(g, tenant, seeds, e) <==> e.tenant == tenant && Reached(g, seeds, e)
  {
    if InScope(g, tenant, seeds, e) && !seeds(e.name) {
      var s :| IsSeed(g, tenant, seeds, s) && Adjacent(g, s, e);
    }
    if e.tenant == tenant && Reached(g, seeds, e) && !seeds(e.name) {
      var k :| k in g.relates && ((k.source == e && seeds(k.target.name)) || (k.target == e && seeds(k.source.name)));
      var s := if k.source == e && seeds(k.target.name) then k.target else k.source;
      assert IsSeed(g, tenant, seeds, s) && Adjacent(g, s, e);
    }
  }

  lemma MatchedIsReached(g: Graph, tenant: Tenant, seeds: string -> bool, chunk: Id)
    requires Sound(g)
    ensures Matched(g, tenant, seeds, chunk) == ReachedMentions(g, tenant, seeds, chunk)
  {
    var matched, reached := Matched(g, tenant, seeds, chunk), ReachedMentions(g, tenant, seeds, chunk);
    forall e | e in matched ensures e in reached {
      InScopeIff(g, tenant, seeds, e);
      assert (chunk, e) in g.mentions && (chunk, e).0 == chunk && (chunk, e).1 == e;
    }
    forall e | e in reached ensures e in matched {
      var m :| m in g.mentions && m.0 == chunk && m.1.tenant == tenant && Reached(g, seeds, m.1) && m.1 == e;
      assert m == (chunk, e);
      InScopeIff(g, tenant, seeds, e);
    }
  }

  /**
   * Main result: a chunk of a document of the tenant is found if and only if it mentions an entity of the tenant
   * that is a seed or stands at either end of a relation whose other end is one, and its score is their number.
   */
  lemma HitIff(g: Graph, tenant: Tenant, seeds: string -> bool, chunk: Id, document: Id)
    requires Sound(g)
    ensures (chunk, document) in Hits(g, tenant, seeds) <==>
              && (chunk, document) in g.partOf && g.docs[document].tenant == tenant
              && exists e :: (chunk, e) in g.mentions && e.tenant == tenant && Reached(g, seeds, e)
    ensures (chunk, document) in Hits(g, tenant, seeds) ==>
              Hits(g, tenant, seeds)[(chunk, document)] == |ReachedMentions(g, tenant, seeds, chunk)|
  {
    MatchedIsReached(g, tenant, seeds, chunk);
    var reached := ReachedMentions(g, tenant, seeds, chunk);
    var row := (chunk, document);
    assert row.0 == chunk && row.1 == document;
    if |reached| > 0 {
      var e :| e in reached;
      assert (chunk, e) in g.mentions;
    }
    forall e | (chunk, e) in g.mentions && e.tenant == tenant && Reached(g, seeds, e) ensures e in reached {
      assert (chunk, e).0 == chunk && (chunk, e).1 == e;
    }
  }

  function Flip(k: RelationKey): RelationKey { RelationKey(k.target, k.source, k.kind) }

  /** The same graph with every relation turned round. */
  ghost predicate TurnedRound(g: Graph, h: Graph) {
    && h.docs == g.docs && h.entities == g.entities && h.partOf == g.partOf && h.mentions == g.mentions
    && (forall k :: k in g.relates ==> Flip(k) in h.relates)
    && (forall k :: k in h.relates ==> Flip(k) in g.relates)
  }

  lemma AdjacentTurned(g: Graph, h: Graph, a: EntityKey, b: EntityKey)
    requires forall k :: k in g.relates ==> Flip(k) in h.relates
    ensures Adjacent(g, a, b) ==> Adjacent(h, a, b)
  {
    if Adjacent(g, a, b) {
      var k :| k in g.relates && ((k.source == a && k.target == b) || (k.source == b && k.target == a));
      assert Flip(k) in h.relates;
    }
  }

  lemma InScopeTurned(g: Graph, h: Graph, tenant: Tenant, seeds: string -> bool, e: EntityKey)
    requires h.entities == g.entities && forall k :: k in g.relates ==> Flip(k) in h.relates
    ensures InScope(g, tenant, seeds, e) ==> InScope(h, tenant, seeds, e)
  {
    if InScope(g, tenant, seeds, e) && !seeds(e.name) {
      var s :| IsSeed(g, tenant, seeds, s) && Adjacent(g, s, e);
      AdjacentTurned(g, h, s, e);
      assert IsSeed(h, tenant, seeds, s);
    }
  }

  lemma MatchedTurned(g: Graph, h: Graph, tenant: Tenant, seeds: string -> bool, chunk: Id)
    requires TurnedRound(g, h)
    ensures Matched(h, tenant, seeds, chunk) == Matched(g, tenant, seeds, chunk)
  {
    forall e ensures InScope(g, tenant, seeds, e) <==> InScope(h, tenant, seeds, e) {
      InScopeTurned(g, h, tenant, seeds, e);
      InScopeTurned(h, g, tenant, seeds, e);
    }
  }

  /** The direction of relations does not matter: turning every one round changes no row and no score. */
  lemma DirectionIrrelevant(g: Graph, h: Graph, tenant: Tenant, seeds: string -> bool)
    requires TurnedRound(g, h)
    ensures Hits(h, tenant, seeds) == Hits(g, tenant, seeds)
  {
    forall chunk ensures Score(h, tenant, seeds, chunk) == Score(g, tenant, seeds, chunk) {
      MatchedTurned(g, h, tenant, seeds, chunk);
    }
  }
}
