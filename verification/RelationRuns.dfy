/** Which relations a document ends up with, whatever runs beside its task. */
module RelationRuns {
  import opened Graph
  import opened UpsertProofs
  import opened Ingest
  import opened IngestProofs

  /** Rows with a missing end match nothing; every other relation of the batch is found. */
  lemma {:induction false} RelationMapRestrict(rows: seq<RelationRow>, all: set<EntityKey>, some: set<EntityKey>)
    requires EndsIn(rows, all)
    ensures RelationMap(rows, some) ==
              map k | k in RelationMap(rows, all) && k.source in some && k.target in some :: RelationMap(rows, all)[k]
  {
    if rows != [] { RelationMapRestrict(rows[..|rows| - 1], all, some); }
  }

  /** Main result for the statement: the relations of the batch with both ends present, under what was stored before. */
  lemma RelationsFound(g: Graph, items: seq<Item>)
    ensures forall k :: k in MergeRelations(g, RelationRows(items)).relates <==>
              k in g.relates || (k in AllRelations(items) && k.source in g.entities && k.target in g.entities)
    ensures forall k :: k in MergeRelations(g, RelationRows(items)).relates ==>
              MergeRelations(g, RelationRows(items)).relates[k] ==
                if k in g.relates then g.relates[k] else AllRelations(items)[k]
  {
    RelationRowsEnds(items);
    RelationMapRestrict(RelationRows(items), EntityRows(items).Keys, g.entities.Keys);
  }

  /** Whether the document's relation statement has taken effect, and which entities were missing then or lost since. */
  datatype Fate = NotYet | Stored(lost: set<EntityKey>)

  function StepFate(s: State, step: Step, doc: Id, fate: Fate): Fate
    requires Enabled(s, step)
  {
    match step
    case RunStatement(d, _, applied) =>
      if d == doc && applied && s.tasks[d].progress == 7
      then Stored(EntityRows(s.tasks[d].items).Keys - s.graph.entities.Keys)
      else fate
    case CleanUp(victims) => if fate.Stored? then Stored(fate.lost + victims) else fate
    case _ => fate
  }

  function FateAfter(s: State, steps: seq<Step>, doc: Id, fate: Fate): Fate
    requires Run(s, steps)
    decreases |steps|
  {
    if steps == [] then fate
    else FateAfter(Apply(s, steps[0]), steps[1..], doc, StepFate(s, steps[0], doc, fate))
  }

  /** Every relation of the batch is an edge, but for those with a lost end. */
  ghost predicate AllButLost(g: Graph, items: seq<Item>, lost: set<EntityKey>) {
    forall k :: k in AllRelations(items) && k.source !in lost && k.target !in lost ==> k in g.relates
  }

  ghost predicate RelationInv(s: State, doc: Id, fate: Fate) {
    if doc !in s.tasks then fate == NotYet
    else
      var t := s.tasks[doc];
      && (fate.Stored? ==> 7 <= t.progress && AllButLost(s.graph, t.items, fate.lost))
      && (t.progress == 8 && t.withGraph && RelationRows(t.items) != [] ==> fate.Stored?)
      && (5 <= t.progress <= 7 ==> t.withGraph)
  }

  // ---------------------------------------------------------------- steps

  lemma OwnRelations(g: Graph, items: seq<Item>)
    ensures AllButLost(MergeRelations(g, RelationRows(items)), items, EntityRows(items).Keys - g.entities.Keys)
  {
    RelationsFound(g, items);
    RelationRowsEnds(items);
    RelationMapOk(items);
  }

  /** The relations of a batch join entities of the batch. */
  lemma RelationMapOk(items: seq<Item>)
    ensures forall k :: k in AllRelations(items) ==> k.source in EntityRows(items) && k.target in EntityRows(items)
  {
    EndsFound(RelationRows(items), EntityRows(items).Keys);
  }

  lemma {:induction false} EndsFound(rows: seq<RelationRow>, entities: set<EntityKey>)
    ensures forall k :: k in RelationMap(rows, entities) ==> k.source in entities && k.target in entities
  {
    if rows != [] { EndsFound(rows[..|rows| - 1], entities); }
  }

  lemma StatementKeepsRelations(g: Graph, t: Task)
    requires 3 <= t.progress <= 7
    ensures g.relates.Keys <= Statement(g, t).relates.Keys
  {
  }

  lemma RunStatementRelations(s: State, step: Step, doc: Id, fate: Fate)
    requires RelationInv(s, doc, fate) && Enabled(s, step) && step.RunStatement?
    ensures RelationInv(Apply(s, step), doc, StepFate(s, step, doc, fate))
  {
    var t := s.tasks[step.doc];
    StatementKeepsRelations(s.graph, t);
    if step.doc == doc {
      if t.progress == 7 { OwnRelations(s.graph, t.items); }
      if t.progress == 4 && EntityRows(t.items) == map[] { NoEntities(t.items); }
    }
  }

  lemma CleanUpRelations(s: State, step: Step, doc: Id, fate: Fate)
    requires RelationInv(s, doc, fate) && Enabled(s, step) && step.CleanUp?
    ensures RelationInv(Apply(s, step), doc, StepFate(s, step, doc, fate))
  {
  }

  /** Nothing else touches relations, deletion of documents included. */
  lemma OtherRelations(s: State, step: Step, doc: Id, fate: Fate)
    requires IdInv(s) && RelationInv(s, doc, fate) && Enabled(s, step) && !step.RunStatement? && !step.CleanUp?
    ensures RelationInv(Apply(s, step), doc, fate)
  {
    if step.Chunked? || step.Upload? {
      BatchRelations(s, step, doc, fate);
    } else {
      SameRelations(s, step);
      if doc in s.tasks { SameBatch(s, step, doc); }
    }
  }

  lemma BatchRelations(s: State, step: Step, doc: Id, fate: Fate)
    requires RelationInv(s, doc, fate) && Enabled(s, step) && (step.Chunked? || step.Upload?)
    ensures RelationInv(Apply(s, step), doc, fate)
  {
    if step.Chunked? && step.items == [] { assert RelationRows(step.items) == []; }
  }

  lemma SameRelations(s: State, step: Step)
    requires Enabled(s, step) && !step.RunStatement? && !step.CleanUp?
    ensures Apply(s, step).graph.relates == s.graph.relates
  {
  }

  lemma SameBatch(s: State, step: Step, doc: Id)
    requires Enabled(s, step) && doc in s.tasks
    requires !step.RunStatement? && !step.CleanUp? && !step.Chunked? && !step.Upload?
    ensures doc in Apply(s, step).tasks
    ensures var t, u := s.tasks[doc], Apply(s, step).tasks[doc];
            && u.items == t.items && u.withGraph == t.withGraph
            && (u.progress == t.progress || (t.progress < u.progress <= 3))
  {
  }

  lemma {:induction false} RunKeepsRelations(s: State, steps: seq<Step>, doc: Id, fate: Fate)
    requires SystemInv(s) && RelationInv(s, doc, fate) && Run(s, steps)
    ensures RelationInv(Exec(s, steps), doc, FateAfter(s, steps, doc, fate))
    decreases |steps|
  {
    if steps != [] {
      var step := steps[0];
      if step.RunStatement? {
        RunStatementRelations(s, step, doc, fate);
      } else if step.CleanUp? {
        CleanUpRelations(s, step, doc, fate);
      } else {
        OtherRelations(s, step, doc, fate);
      }
      StepKeepsSystem(s, step);
      RunKeepsRelations(Apply(s, step), steps[1..], doc, StepFate(s, step, doc, fate));
    }
  }

  // ---------------------------------------------------------------- whole runs

  /**
   * Main result, for every interleaving: once the document's relation statement has taken effect, every relation of
   * its batch stays an edge of the graph, but for those an end of which was missing then or has been deleted since.
   * Deleting the document does not remove them.
   */
  lemma RelationsStay(steps: seq<Step>, doc: Id)
    requires Run(INITIAL, steps) && FateAfter(INITIAL, steps, doc, NotYet).Stored?
    ensures var s, lost := Exec(INITIAL, steps), FateAfter(INITIAL, steps, doc, NotYet).lost;
            doc in s.tasks && AllButLost(s.graph, s.tasks[doc].items, lost)
  {
    RunKeepsRelations(INITIAL, steps, doc, NotYet);
  }

  /** A completed document whose extraction found relations has stored them. */
  lemma CompletedHasStored(steps: seq<Step>, doc: Id)
    requires Run(INITIAL, steps)
    requires var s := Exec(INITIAL, steps);
             && doc in s.status && s.status[doc] == Completed
             && doc in s.tasks && s.tasks[doc].withGraph && RelationRows(s.tasks[doc].items) != []
    ensures FateAfter(INITIAL, steps, doc, NotYet).Stored?
  {
    RunKeeps(INITIAL, steps);
    RunKeepsRelations(INITIAL, steps, doc, NotYet);
    assert StatusOk(Exec(INITIAL, steps), doc);
  }

  /** No cleanup runs after the document's entity statement. */
  predicate NoCleanUpSince(s: State, steps: seq<Step>, doc: Id)
    requires Run(s, steps)
    decreases |steps|
  {
    steps == []
    || (!(steps[0].CleanUp? && doc in s.tasks && s.tasks[doc].progress >= 6)
        && NoCleanUpSince(Apply(s, steps[0]), steps[1..], doc))
  }

  predicate EntitiesThere(s: State, doc: Id) {
    doc in s.tasks && 6 <= s.tasks[doc].progress <= 7 ==> EntityRows(s.tasks[doc].items).Keys <= s.graph.entities.Keys
  }

  lemma StepKeepsEntities(s: State, step: Step, doc: Id)
    requires Enabled(s, step) && EntitiesThere(s, doc)
    requires !(step.CleanUp? && doc in s.tasks && s.tasks[doc].progress >= 6)
    ensures EntitiesThere(Apply(s, step), doc)
  {
    if step.RunStatement? {
      EntitiesGrow(s.graph, s.tasks[step.doc]);
    } else {
      OtherKeepsEntities(s, step, doc);
    }
  }

  lemma OtherKeepsEntities(s: State, step: Step, doc: Id)
    requires Enabled(s, step) && EntitiesThere(s, doc) && !step.RunStatement?
    requires !(step.CleanUp? && doc in s.tasks && s.tasks[doc].progress >= 6)
    ensures EntitiesThere(Apply(s, step), doc)
  {
  }

  lemma EntitiesGrow(g: Graph, t: Task)
    requires 3 <= t.progress <= 7
    ensures g.entities.Keys <= Statement(g, t).entities.Keys
    ensures t.progress == 5 ==> EntityRows(t.items).Keys <= Statement(g, t).entities.Keys
  {
  }

  /** Then no relation of the batch is lost. */
  lemma {:induction false} NothingLost(s: State, steps: seq<Step>, doc: Id, fate: Fate)
    requires Run(s, steps) && NoCleanUpSince(s, steps, doc) && EntitiesThere(s, doc)
    requires fate == NotYet || (fate == Stored({}) && doc in s.tasks && s.tasks[doc].progress >= 7)
    ensures FateAfter(s, steps, doc, fate) in {NotYet, Stored({})}
    decreases |steps|
  {
    if steps != [] {
      StepKeepsEntities(s, steps[0], doc);
      NothingLostYet(s, steps[0], doc, fate);
      NothingLost(Apply(s, steps[0]), steps[1..], doc, StepFate(s, steps[0], doc, fate));
    }
  }

  lemma NothingLostYet(s: State, step: Step, doc: Id, fate: Fate)
    requires Enabled(s, step) && EntitiesThere(s, doc)
    requires fate == NotYet || (fate == Stored({}) && doc in s.tasks && s.tasks[doc].progress >= 7)
    requires !(step.CleanUp? && doc in s.tasks && s.tasks[doc].progress >= 6)
    ensures var next, t := StepFate(s, step, doc, fate), Apply(s, step);
            next == NotYet || (next == Stored({}) && doc in t.tasks && t.tasks[doc].progress >= 7)
  {
  }

  /** Together: with no cleanup after its entity statement a completed document has every relation of its batch. */
  lemma CompletedRelations(steps: seq<Step>, doc: Id)
    requires Run(INITIAL, steps) && NoCleanUpSince(INITIAL, steps, doc)
    requires var s := Exec(INITIAL, steps); doc in s.status && s.status[doc] == Completed
    ensures var s := Exec(INITIAL, steps);
            && doc in s.tasks
            && (s.tasks[doc].withGraph ==> forall k :: k in AllRelations(s.tasks[doc].items) ==> k in s.graph.relates)
  {
    HasTask(steps, doc);
    var t := Exec(INITIAL, steps).tasks[doc];
    if t.withGraph && RelationRows(t.items) != [] {
      CompletedHasStored(steps, doc);
      RelationsStay(steps, doc);
      NothingLost(INITIAL, steps, doc, NotYet);
    }
  }

  lemma HasTask(steps: seq<Step>, doc: Id)
    requires Run(INITIAL, steps) && doc in Exec(INITIAL, steps).status
    ensures doc in Exec(INITIAL, steps).tasks
  {
    RunKeeps(INITIAL, steps);
    assert StatusOk(Exec(INITIAL, steps), doc);
  }
}
