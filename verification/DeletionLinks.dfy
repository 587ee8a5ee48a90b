/** When the chunk nodes of a document are all PART_OF it, so that deletion can find them. */
module DeletionLinks {
  import opened Graph
  import opened GraphInv
  import opened UpsertProofs
  import opened Ingest
  import opened IngestProofs
  import opened DeletionProofs

  // ---------------------------------------------------------------- when chunk nodes are linked

  /** A graph call on the document takes effect between its task's document and chunk statements. */
  predicate CutsIn(s: State, step: Step, doc: Id)
    requires Enabled(s, step)
  {
    step.ContinueDelete? && step.applied && Calls(s, step.i, 1, doc) && At(s, doc, 4)
  }

  predicate NeverCutIn(s: State, steps: seq<Step>, doc: Id)
    requires Run(s, steps)
    decreases |steps|
  {
    steps == [] || (!CutsIn(s, steps[0], doc) && NeverCutIn(Apply(s, steps[0]), steps[1..], doc))
  }

  ghost predicate LinkInv(s: State, doc: Id) {
    && Linked(s, doc)
    && (doc in s.tasks && s.tasks[doc].progress <= 3 ==> ChunkNodes(s, doc) == {})
    && (At(s, doc, 4) ==> doc in s.graph.docs)
  }

  lemma StatementKeepsLinks(s: State, step: Step, doc: Id)
    requires FullInv(s) && LinkInv(s, doc) && Enabled(s, step) && step.RunStatement?
    ensures LinkInv(Apply(s, step), doc)
  {
    var t := s.tasks[step.doc];
    assert OwnsIds(t, step.doc, s.reg);
    if step.doc != doc {
      OtherStatementNodes(s.graph, t, step.doc, doc, s.reg);
      assert forall c :: c in ChunkNodes(Apply(s, step), doc) ==> c in ChunkNodes(s, doc);
    } else if t.progress >= 5 {
      LaterStatementNodes(s.graph, t);
    } else {
      HasItems(s, doc);
      OwnStatementLinks(s, step, doc);
    }
  }

  lemma OwnStatementLinks(s: State, step: Step, doc: Id)
    requires FullInv(s) && LinkInv(s, doc) && Enabled(s, step) && step.RunStatement? && step.doc == doc
    requires s.tasks[doc].progress <= 4 && s.tasks[doc].items != [] && s.tasks[doc].items[0].chunk.document == doc
    ensures LinkInv(Apply(s, step), doc)
  {
    var t := s.tasks[doc];
    assert OwnsIds(t, doc, s.reg);
    if t.progress == 3 {
      OneDocRow(t.items[0].chunk);
    } else {
      OwnChunksLink(s.graph, t, doc, s.reg);
    }
  }

  lemma OwnChunksLink(g: Graph, t: Task, doc: Id, reg: Registry)
    requires OwnsIds(t, doc, reg) && doc in g.docs
    ensures var after := MergeChunks(g, ChunkRows(t.items));
            && after.docs == g.docs
            && (forall c :: c in after.chunks && c !in g.chunks ==> (c, doc) in after.partOf)
            && g.partOf <= after.partOf
  {
    var rows := ChunkRows(t.items);
    ChunkMapKeys(rows);
    forall k | 0 <= k < |rows| ensures (rows[k].id, doc) in Links(rows, g.docs.Keys) {
      assert Belongs(t.items[k], doc, t);
      assert rows[k].document == doc;
    }
  }

  lemma DeleteKeepsLinks(s: State, step: Step, doc: Id)
    requires FullInv(s) && LinkInv(s, doc) && Enabled(s, step) && step.ContinueDelete? && !CutsIn(s, step, doc)
    ensures LinkInv(Apply(s, step), doc)
  {
    var d := s.deletions[step.i];
    if !step.applied || d.next != 1 {
      QuietCallKeepsLinks(s, step, doc);
    } else {
      assert RequestTenantOk(d, s.reg);
      DeleteLeaves(s.graph, s.reg, d);
      if d.document == doc {
        OwnGraphCallKeepsLinks(s, step, doc);
      } else {
        OtherGraphCallKeepsLinks(s, step, doc);
      }
    }
  }

  lemma QuietCallKeepsLinks(s: State, step: Step, doc: Id)
    requires LinkInv(s, doc) && Enabled(s, step) && step.ContinueDelete?
    requires !step.applied || s.deletions[step.i].next != 1
    ensures LinkInv(Apply(s, step), doc)
  {
    assert ChunkNodes(Apply(s, step), doc) == ChunkNodes(s, doc);
  }

  /** Its own graph call takes all its nodes, as they are linked. */
  lemma OwnGraphCallKeepsLinks(s: State, step: Step, doc: Id)
    requires FullInv(s) && LinkInv(s, doc) && Enabled(s, step) && step.ContinueDelete? && !CutsIn(s, step, doc)
    requires step.applied && Calls(s, step.i, 1, doc)
    ensures LinkInv(Apply(s, step), doc)
  {
    GraphCallClearsIff(s, step.i, doc);
    assert step == ContinueDelete(step.i, true);
    assert !At(s, doc, 4);
    SameTasks(s, step);
  }

  lemma OtherGraphCallKeepsLinks(s: State, step: Step, doc: Id)
    requires FullInv(s) && LinkInv(s, doc) && Enabled(s, step) && step.ContinueDelete?
    requires step.applied && s.deletions[step.i].next == 1 && s.deletions[step.i].document != doc
    ensures LinkInv(Apply(s, step), doc)
  {
    OtherLinksStay(s.graph, s.reg, s.deletions[step.i], doc);
    SameTasks(s, step);
    assert forall c :: c in ChunkNodes(Apply(s, step), doc) ==> c in ChunkNodes(s, doc);
  }

  lemma SameTasks(s: State, step: Step)
    requires Enabled(s, step) && step.ContinueDelete?
    ensures Apply(s, step).tasks == s.tasks && Apply(s, step).reg == s.reg
  {
  }

  lemma OtherLinksStay(g: Graph, reg: Registry, d: Deletion, doc: Id)
    requires PartOfOk(g, reg) && d.document != doc
    ensures var after := DeleteDocument(g, d.tenant, d.document);
            && (doc in g.docs ==> doc in after.docs)
            && forall c :: (c, doc) in g.partOf ==> (c, doc) in after.partOf
  {
  }

  lemma StepKeepsLinks(s: State, step: Step, doc: Id)
    requires FullInv(s) && LinkInv(s, doc) && Enabled(s, step) && !CutsIn(s, step, doc)
    ensures LinkInv(Apply(s, step), doc)
  {
    if step.RunStatement? {
      StatementKeepsLinks(s, step, doc);
    } else if step.ContinueDelete? {
      DeleteKeepsLinks(s, step, doc);
    } else if step.Chunked? {
      ChunkedAddsNoNodes(s, step, doc);
    } else if step.Upload? {
      UploadKeepsLinks(s, step, doc);
    } else {
      QuietKeepsLinks(s, step, doc);
    }
  }

  lemma UploadKeepsLinks(s: State, step: Step, doc: Id)
    requires FullInv(s) && LinkInv(s, doc) && Enabled(s, step) && step.Upload?
    ensures LinkInv(Apply(s, step), doc)
  {
    assert ChunkNodes(Apply(s, step), doc) == ChunkNodes(s, doc);
    if step.doc == doc {
      forall c | c in s.reg.chunkHome ensures s.reg.chunkHome[c] != doc { assert HasHome(s.reg, c); }
    }
  }

  lemma QuietKeepsLinks(s: State, step: Step, doc: Id)
    requires LinkInv(s, doc) && Enabled(s, step) && !step.RunStatement? && !step.ContinueDelete?
    requires !step.Chunked? && !step.Upload?
    ensures LinkInv(Apply(s, step), doc)
  {
    assert ChunkNodes(Apply(s, step), doc) == ChunkNodes(s, doc);
  }

  lemma {:induction false} LinksLater(s: State, steps: seq<Step>, doc: Id)
    requires FullInv(s) && LinkInv(s, doc) && Run(s, steps) && NeverCutIn(s, steps, doc)
    ensures LinkInv(Exec(s, steps), doc)
    decreases |steps|
  {
    if steps != [] {
      StepKeepsFull(s, steps[0]);
      StepKeepsLinks(s, steps[0], doc);
      LinksLater(Apply(s, steps[0]), steps[1..], doc);
    }
  }

  /** In every run in which no graph call cuts in between, the document's chunk nodes are PART_OF it. */
  lemma LinkedUnlessCutIn(steps: seq<Step>, doc: Id)
    requires Run(INITIAL, steps) && NeverCutIn(INITIAL, steps, doc)
    ensures Linked(Exec(INITIAL, steps), doc)
  {
    LinksLater(INITIAL, steps, doc);
  }

  /** And where one has just cut in, the task's chunk statement leaves nodes that are PART_OF nothing. */
  lemma CutInUnlinks(s: State, step: Step, doc: Id)
    requires FullInv(s) && Enabled(s, step) && CutsIn(s, step, doc)
    ensures var t := Apply(s, step);
            && Enabled(t, RunStatement(doc, true, true))
            && !Linked(Apply(t, RunStatement(doc, true, true)), doc)
  {
    var t := Apply(s, step);
    StepKeepsFull(s, step);
    var d := s.deletions[step.i];
    assert RequestTenantOk(d, s.reg);
    DeleteLeaves(s.graph, s.reg, d);
    var own := t.tasks[doc];
    HasItems(t, doc);
    ChunkMapKeys(ChunkRows(own.items));
    assert ChunkRows(own.items)[0].id == own.items[0].chunk.id;
    var after := Apply(t, RunStatement(doc, true, true));
    assert own.items[0].chunk.id in ChunkNodes(after, doc);
    NoLinkWithoutDoc(t.graph, t.reg, own, doc);
  }

  lemma NoLinkWithoutDoc(g: Graph, reg: Registry, t: Task, doc: Id)
    requires doc !in g.docs && PartOfOk(g, reg)
    ensures forall c :: (c, doc) !in MergeChunks(g, ChunkRows(t.items)).partOf
  {
    assert forall c :: (c, doc) in g.partOf ==> (c, doc).1 in g.docs;
  }
}
