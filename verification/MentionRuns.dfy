/** Which mentions a document ends up with, whatever runs between the statements of its task. */
module MentionRuns {
  import opened Graph
  import opened GraphInv
  import opened UpsertProofs
  import Cleanup
  import opened Ingest
  import opened IngestProofs

  /** The mentions of the batch's chunks. */
  ghost function DocMentions(g: Graph, items: seq<Item>): set<(Id, EntityKey)> {
    set m | m in g.mentions && m.0 in ChunkIds(items)
  }

  /** What the task says about its chunks, less the entities that were missing. */
  function Expected(t: Task, missing: set<EntityKey>): set<(Id, EntityKey)> {
    if t.withGraph then set m | m in AllMentions(t.items) && m.1 !in missing else {}
  }

  /**
   * The entities missing when the document's mention statement runs: those a cleanup deletes after its entity
   * statement, unless another task merges them again.
   */
  function StepMissing(s: State, step: Step, doc: Id, missing: set<EntityKey>): set<EntityKey>
    requires Enabled(s, step)
  {
    match step
    case RunStatement(d, _, applied) =>
      if !applied || s.tasks[d].progress != 5 then missing
      else if d == doc then {}
      else if At(s, doc, 6) then missing - EntityRows(s.tasks[d].items).Keys
      else missing
    case CleanUp(victims) => if At(s, doc, 6) then missing + victims else missing
    case _ => missing
  }

  function MissingAfter(s: State, steps: seq<Step>, doc: Id, missing: set<EntityKey>): set<EntityKey>
    requires Run(s, steps)
    decreases |steps|
  {
    if steps == [] then missing
    else MissingAfter(Apply(s, steps[0]), steps[1..], doc, StepMissing(s, steps[0], doc, missing))
  }

  // ---------------------------------------------------------------- the invariant

  ghost predicate NoneYet(s: State, t: Task) {
    t.life == Live && t.progress <= 6 ==> DocMentions(s.graph, t.items) == {}
  }

  predicate Present(g: Graph, items: seq<Item>, missing: set<EntityKey>) {
    forall e :: e in EntityRows(items) ==> (e in g.entities <==> e !in missing)
  }

  ghost predicate MentionInv(s: State, doc: Id, missing: set<EntityKey>) {
    doc in s.tasks ==>
      var t := s.tasks[doc];
      && (5 <= t.progress <= 7 ==> t.withGraph)
      && NoneYet(s, t)
      && (t.life == Live && t.progress == 6 ==> Present(s.graph, t.items, missing))
      && (7 <= t.progress && !DeleteStarted(s, doc) ==> DocMentions(s.graph, t.items) == Expected(t, missing))
  }

  // ---------------------------------------------------------------- the document's own statements

  lemma OwnEarlyStatement(s: State, step: Step, missing: set<EntityKey>)
    requires Enabled(s, step) && step.RunStatement? && MentionInv(s, step.doc, missing)
    requires s.tasks[step.doc].progress in {3, 4, 7}
    ensures MentionInv(Apply(s, step), step.doc, missing)
  {
    var t := s.tasks[step.doc];
    assert Statement(s.graph, t).mentions == s.graph.mentions;
    if t.progress == 4 && EntityRows(t.items) == map[] { NoEntities(t.items); }
  }

  lemma OwnEntities(s: State, step: Step, missing: set<EntityKey>)
    requires Enabled(s, step) && step.RunStatement? && MentionInv(s, step.doc, missing)
    requires s.tasks[step.doc].progress == 5
    ensures MentionInv(Apply(s, step), step.doc, StepMissing(s, step, step.doc, missing))
  {
  }

  lemma OwnMentions(s: State, step: Step, missing: set<EntityKey>)
    requires SystemInv(s) && Enabled(s, step) && step.RunStatement? && MentionInv(s, step.doc, missing)
    requires s.tasks[step.doc].progress == 6
    ensures MentionInv(Apply(s, step), step.doc, missing)
  {
    var t := s.tasks[step.doc];
    if !DeleteStarted(s, step.doc) {
      assert Written(t, step.doc, s.vectors, s.graph);
      MentionsFound(s.graph, t, step.doc, missing);
    }
  }

  lemma MentionsFound(g: Graph, t: Task, doc: Id, missing: set<EntityKey>)
    requires t.withGraph && DocMentions(g, t.items) == {} && Present(g, t.items, missing)
    requires GraphHolds(g, t.items, doc)
    ensures DocMentions(MergeMentions(g, MentionRows(t.items)), t.items) == Expected(t, missing)
  {
    var rows := MentionRows(t.items);
    MentionRowsEnds(t.items);
    forall c | c in ChunkIds(t.items) ensures c in g.chunks {
      var k :| 0 <= k < |t.items| && t.items[k].chunk.id == c;
      assert NodeHeld(g, t.items[k].chunk, doc);
    }
    var edges := MentionEdges(rows, g.chunks.Keys, g.entities.Keys);
    EdgesPresent(rows, g.chunks.Keys, g.entities.Keys, ChunkIds(t.items), EntityRows(t.items).Keys, missing);
    assert forall m :: m in edges ==> m.0 in ChunkIds(t.items);
    assert DocMentions(MergeMentions(g, rows), t.items) == DocMentions(g, t.items) + edges;
  }

  lemma EdgesPresent(rows: seq<MentionRow>, chunks: set<Id>, entities: set<EntityKey>, ids: set<Id>,
                     keys: set<EntityKey>, missing: set<EntityKey>)
    requires MentionsIn(rows, ids, keys) && ids <= chunks
    requires forall e :: e in keys ==> (e in entities <==> e !in missing)
    ensures MentionEdges(rows, chunks, entities) == set m | m in EdgesOf(rows) && m.1 !in missing
    ensures forall m :: m in EdgesOf(rows) ==> m.0 in ids
  {
    forall k | 0 <= k < |rows|
      ensures rows[k].chunk in chunks && (rows[k].entity in entities <==> (rows[k].chunk, rows[k].entity).1 !in missing)
    {
    }
  }

  lemma OwnStatement(s: State, step: Step, missing: set<EntityKey>)
    requires SystemInv(s) && Enabled(s, step) && step.RunStatement? && MentionInv(s, step.doc, missing)
    ensures MentionInv(Apply(s, step), step.doc, StepMissing(s, step, step.doc, missing))
  {
    if s.tasks[step.doc].progress == 5 {
      OwnEntities(s, step, missing);
    } else if s.tasks[step.doc].progress == 6 {
      OwnMentions(s, step, missing);
    } else {
      OwnEarlyStatement(s, step, missing);
    }
  }

  // ---------------------------------------------------------------- everybody else

  lemma OthersMentions(g: Graph, other: Task, d: Id, t: Task, doc: Id, reg: Registry)
    requires OwnsIds(other, d, reg) && OwnsIds(t, doc, reg) && d != doc
    ensures DocMentions(MergeMentions(g, MentionRows(other.items)), t.items) == DocMentions(g, t.items)
  {
    var rows := MentionRows(other.items);
    MentionRowsEnds(other.items);
    assert forall c :: c in ChunkIds(other.items) ==> c !in ChunkIds(t.items);
    assert forall k :: 0 <= k < |rows| ==> rows[k].chunk !in ChunkIds(t.items);
  }

  lemma OtherStatementGraph(g: Graph, other: Task, d: Id, t: Task, doc: Id, reg: Registry)
    requires 3 <= other.progress <= 7 && OwnsIds(other, d, reg) && OwnsIds(t, doc, reg) && d != doc
    ensures DocMentions(Statement(g, other), t.items) == DocMentions(g, t.items)
  {
    if other.progress == 6 {
      OthersMentions(g, other, d, t, doc, reg);
    } else {
      assert Statement(g, other).mentions == g.mentions;
    }
  }

  /** What another task's statement leaves as it was. */
  lemma OtherStatementLeaves(s: State, step: Step, doc: Id)
    requires Enabled(s, step) && step.RunStatement? && step.doc != doc && doc in s.tasks
    ensures var u := Apply(s, step);
            && u.tasks[doc] == s.tasks[doc] && u.deletions == s.deletions
            && u.graph == if step.applied then Statement(s.graph, s.tasks[step.doc]) else s.graph
  {
  }

  lemma OtherStatementMentions(s: State, step: Step, doc: Id, missing: set<EntityKey>)
    requires IdInv(s) && MentionInv(s, doc, missing) && Enabled(s, step) && step.RunStatement? && step.doc != doc
    ensures MentionInv(Apply(s, step), doc, StepMissing(s, step, doc, missing))
  {
    if doc in s.tasks {
      var t, other := s.tasks[doc], s.tasks[step.doc];
      assert OwnsIds(t, doc, s.reg) && OwnsIds(other, step.doc, s.reg);
      OtherStatementLeaves(s, step, doc);
      OtherStatementGraph(s.graph, other, step.doc, t, doc, s.reg);
      if t.life == Live && t.progress == 6 { StillPresent(s, step, doc, missing); }
    }
  }

  lemma StillPresent(s: State, step: Step, doc: Id, missing: set<EntityKey>)
    requires Enabled(s, step) && step.RunStatement? && step.doc != doc && At(s, doc, 6)
    requires Present(s.graph, s.tasks[doc].items, missing)
    ensures Present(Apply(s, step).graph, s.tasks[doc].items, StepMissing(s, step, doc, missing))
  {
    OtherStatementLeaves(s, step, doc);
    StatementEntities(s.graph, s.tasks[step.doc]);
  }

  lemma StatementEntities(g: Graph, t: Task)
    requires 3 <= t.progress <= 7
    ensures Statement(g, t).entities.Keys ==
              if t.progress == 5 then g.entities.Keys + EntityRows(t.items).Keys else g.entities.Keys
  {
  }

  lemma CleanUpMentions(s: State, step: Step, doc: Id, missing: set<EntityKey>)
    requires MentionInv(s, doc, missing) && Enabled(s, step) && step.CleanUp?
    ensures MentionInv(Apply(s, step), doc, StepMissing(s, step, doc, missing))
  {
    Cleanup.OrphansDeleted(s.graph, step.victims);
  }

  lemma DeleteMentions(s: State, step: Step, doc: Id, missing: set<EntityKey>)
    requires SystemInv(s) && MentionInv(s, doc, missing) && Enabled(s, step) && step.ContinueDelete?
    ensures MentionInv(Apply(s, step), doc, missing)
  {
    var t, d := Apply(s, step), s.deletions[step.i];
    DeleteStartedBefore(s, step, doc);
    if doc in s.tasks && step.applied && d.next == 1 {
      assert OwnsIds(s.tasks[doc], doc, s.reg);
      if d.document == doc {
        assert DeleteStarted(s, doc);
        FewerMentions(s.graph, d, s.tasks[doc].items);
      } else {
        OtherDocumentsMentions(s.graph, d, s.tasks[doc], doc, s.reg);
      }
    }
  }

  lemma FewerMentions(g: Graph, d: Deletion, items: seq<Item>)
    ensures DocMentions(DeleteDocument(g, d.tenant, d.document), items) <= DocMentions(g, items)
    ensures DeleteDocument(g, d.tenant, d.document).entities == g.entities
  {
  }

  lemma OtherDocumentsMentions(g: Graph, d: Deletion, t: Task, doc: Id, reg: Registry)
    requires PartOfOk(g, reg) && OwnsIds(t, doc, reg) && d.document != doc
    ensures DocMentions(DeleteDocument(g, d.tenant, d.document), t.items) == DocMentions(g, t.items)
    ensures DeleteDocument(g, d.tenant, d.document).entities == g.entities
  {
    forall c | c in ChunkIds(t.items) ensures (c, d.document) !in g.partOf {
      assert reg.chunkHome[c] == doc && (c, d.document).0 == c && (c, d.document).1 == d.document;
    }
  }

  lemma ChunkedMentions(s: State, step: Step, doc: Id, missing: set<EntityKey>)
    requires SystemInv(s) && MentionInv(s, doc, missing) && Enabled(s, step) && step.Chunked?
    ensures MentionInv(Apply(s, step), doc, missing)
  {
    if step.doc == doc {
      forall m | m in s.graph.mentions ensures m.0 !in ChunkIds(step.items) {
        assert m.0 in s.graph.chunks && HasHome(s.reg, m.0);
      }
      if step.items == [] { NoItems(step.items); }
    }
  }

  lemma NoItems(items: seq<Item>)
    requires items == []
    ensures AllMentions(items) == {}
  {
    NoEntities(items);
  }

  /** Steps that touch neither the graph nor the batch. */
  lemma QuietMentions(s: State, step: Step, doc: Id, missing: set<EntityKey>)
    requires MentionInv(s, doc, missing) && Enabled(s, step)
    requires !step.RunStatement? && !step.CleanUp? && !step.ContinueDelete? && !step.Chunked? && !step.Upload?
    ensures MentionInv(Apply(s, step), doc, missing)
  {
    DeleteStartedBefore(s, step, doc);
    if doc in s.tasks { SameBatchOrEarly(s, step, doc); }
  }

  lemma SameBatchOrEarly(s: State, step: Step, doc: Id)
    requires Enabled(s, step) && doc in s.tasks
    requires !step.RunStatement? && !step.CleanUp? && !step.ContinueDelete? && !step.Chunked? && !step.Upload?
    ensures var t, u := s.tasks[doc], Apply(s, step).tasks[doc];
            && u.items == t.items && u.withGraph == t.withGraph && (u.life == Live ==> t.life == Live)
            && (u.progress == t.progress || (t.progress < u.progress <= 3))
    ensures Apply(s, step).graph == s.graph
  {
  }

  lemma UploadMentions(s: State, step: Step, doc: Id, missing: set<EntityKey>)
    requires SystemInv(s) && MentionInv(s, doc, missing) && Enabled(s, step) && step.Upload?
    ensures MentionInv(Apply(s, step), doc, missing)
  {
    if step.doc == doc { assert ChunkIds([]) == {}; }
  }

  lemma StepKeepsMentions(s: State, step: Step, doc: Id, missing: set<EntityKey>)
    requires SystemInv(s) && MentionInv(s, doc, missing) && Enabled(s, step)
    ensures MentionInv(Apply(s, step), doc, StepMissing(s, step, doc, missing))
  {
    if step.RunStatement? {
      if step.doc == doc { OwnStatement(s, step, missing); } else { OtherStatementMentions(s, step, doc, missing); }
    } else if step.CleanUp? {
      CleanUpMentions(s, step, doc, missing);
    } else if step.ContinueDelete? {
      DeleteMentions(s, step, doc, missing);
    } else if step.Chunked? {
      ChunkedMentions(s, step, doc, missing);
    } else if step.Upload? {
      UploadMentions(s, step, doc, missing);
    } else {
      QuietMentions(s, step, doc, missing);
    }
  }

  // ---------------------------------------------------------------- whole runs

  lemma {:induction false} RunKeepsMentions(s: State, steps: seq<Step>, doc: Id, missing: set<EntityKey>)
    requires SystemInv(s) && MentionInv(s, doc, missing) && Run(s, steps)
    ensures MentionInv(Exec(s, steps), doc, MissingAfter(s, steps, doc, missing))
    decreases |steps|
  {
    if steps != [] {
      StepKeepsMentions(s, steps[0], doc, missing);
      StepKeepsSystem(s, steps[0]);
      RunKeepsMentions(Apply(s, steps[0]), steps[1..], doc, StepMissing(s, steps[0], doc, missing));
    }
  }

  /**
   * Main result, for every interleaving: a completed document nobody asked to delete has exactly the mentions of
   * its batch, less those of the entities missing when its mention statement ran.
   */
  lemma CompletedMentions(steps: seq<Step>, doc: Id)
    requires Run(INITIAL, steps)
    requires var s := Exec(INITIAL, steps);
             doc in s.status && s.status[doc] == Completed && !DeleteStarted(s, doc)
    ensures var s := Exec(INITIAL, steps);
            && doc in s.tasks
            && DocMentions(s.graph, s.tasks[doc].items)
               == Expected(s.tasks[doc], MissingAfter(INITIAL, steps, doc, {}))
  {
    RunKeeps(INITIAL, steps);
    RunKeepsMentions(INITIAL, steps, doc, {});
    assert StatusOk(Exec(INITIAL, steps), doc);
  }

  /** No cleanup runs between the document's entity and mention statements. */
  predicate Undisturbed(s: State, steps: seq<Step>, doc: Id)
    requires Run(s, steps)
    decreases |steps|
  {
    steps == [] || (!(steps[0].CleanUp? && At(s, doc, 6)) && Undisturbed(Apply(s, steps[0]), steps[1..], doc))
  }

  /** Then nothing is missing. */
  lemma {:induction false} NothingMissing(s: State, steps: seq<Step>, doc: Id)
    requires Run(s, steps) && Undisturbed(s, steps, doc)
    ensures MissingAfter(s, steps, doc, {}) == {}
    decreases |steps|
  {
    if steps != [] {
      assert StepMissing(s, steps[0], doc, {}) == {};
      NothingMissing(Apply(s, steps[0]), steps[1..], doc);
    }
  }
}
