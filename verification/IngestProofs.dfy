/** Whole-run results for ingestion, deletion and cleanup. */
module IngestProofs {
  import opened Numbers
  import opened Graph
  import opened GraphInv
  import opened UpsertProofs
  import opened Ingest

  // ---------------------------------------------------------------- ids

  /** The chunks of a task are registered to its document, each once, and nothing else is. */
  ghost predicate OwnsIds(t: Task, doc: Id, reg: Registry) {
    && doc in reg.docTenant && reg.docTenant[doc] == t.tenant
    && (forall k :: 0 <= k < |t.items| ==> Belongs(t.items[k], doc, t))
    && (forall c :: c in reg.chunkHome && reg.chunkHome[c] == doc <==> c in ChunkIds(t.items))
    && (forall j, k :: 0 <= j < k < |t.items| ==> t.items[j].chunk.id != t.items[k].chunk.id)
  }

  ghost predicate IdInv(s: State) {
    && (forall d :: d in s.tasks ==>
          OwnsIds(s.tasks[d], d, s.reg) && (s.tasks[d].progress < 2 ==> s.tasks[d].items == []))
    && (forall d :: d in s.reg.docTenant ==> d in s.tasks)
    && (forall c :: c in s.reg.chunkHome ==> HasHome(s.reg, c))
    && (forall c :: c in s.vectors ==> HasHome(s.reg, c) && s.vectors[c].document == s.reg.chunkHome[c])
  }

  lemma OwnItemsOk(t: Task, doc: Id, reg: Registry)
    requires OwnsIds(t, doc, reg)
    ensures ItemsOk(t.items, reg)
  {
    forall k | 0 <= k < |t.items| ensures ItemOk(t.items[k], reg) {
      assert Belongs(t.items[k], doc, t);
      assert t.items[k].chunk.id in ChunkIds(t.items);
    }
  }

  // ---------------------------------------------------------------- the graph invariant

  lemma StatementKeeps(g: Graph, t: Task, doc: Id, reg: Registry)
    requires Inv(g, reg) && OwnsIds(t, doc, reg) && 3 <= t.progress <= 7
    ensures Inv(Statement(g, t), reg)
  {
    OwnItemsOk(t, doc, reg);
    match t.progress
    case 3 =>
      if t.items != [] {
        assert Belongs(t.items[0], doc, t);
        MergeDocsKeeps(g, [ToDocRow(t.items[0].chunk)], reg);
      }
    case 4 =>
      forall k | 0 <= k < |t.items| ensures ChunkRowOk(ChunkRows(t.items)[k], reg) { assert ItemOk(t.items[k], reg); }
      MergeChunksKeeps(g, ChunkRows(t.items), reg);
    case 5 => MergeEntitiesKeeps(g, EntityRows(t.items), reg);
    case 6 =>
      MentionRowsOfItemsOk(t.items, reg);
      MergeMentionsKeeps(g, MentionRows(t.items), reg);
    case 7 =>
      RelationRowsOfItemsOk(t.items);
      MergeRelationsKeeps(g, RelationRows(t.items), reg);
  }

  lemma StepKeepsGraph(s: State, step: Step)
    requires IdInv(s) && Inv(s.graph, s.reg) && Enabled(s, step)
    ensures Inv(Apply(s, step).graph, Apply(s, step).reg)
  {
    if step.RunStatement? {
      StatementKeeps(s.graph, s.tasks[step.doc], step.doc, s.reg);
      GraphAfterStatement(s, step);
    } else if step.ContinueDelete? || step.CleanUp? {
      DeletingKeepsGraph(s, step);
    } else {
      RegistryKeepsGraph(s, step);
    }
  }

  lemma GraphAfterStatement(s: State, step: Step)
    requires Enabled(s, step) && step.RunStatement?
    ensures Apply(s, step).graph in {s.graph, Statement(s.graph, s.tasks[step.doc])} && Apply(s, step).reg == s.reg
  {
  }

  lemma DeletingKeepsGraph(s: State, step: Step)
    requires Inv(s.graph, s.reg) && Enabled(s, step) && (step.ContinueDelete? || step.CleanUp?)
    ensures Inv(Apply(s, step).graph, Apply(s, step).reg)
  {
    if step.CleanUp? {
      DeleteEntitiesKeeps(s.graph, step.victims, s.reg);
    } else {
      DeleteDocumentKeeps(s.graph, s.deletions[step.i].tenant, s.deletions[step.i].document, s.reg);
    }
  }

  /** The other steps leave the graph alone and only ever add new ids. */
  lemma RegistryKeepsGraph(s: State, step: Step)
    requires Inv(s.graph, s.reg) && Enabled(s, step)
    requires !step.RunStatement? && !step.ContinueDelete? && !step.CleanUp?
    ensures Inv(Apply(s, step).graph, Apply(s, step).reg)
  {
    if step.Chunked? {
      forall c | c in s.reg.chunkHome ensures c !in ChunkIds(step.items) {}
    }
    InvExtends(s.graph, s.reg, Apply(s, step).reg);
  }

  // ---------------------------------------------------------------- ids stay apart

  lemma UploadKeepsIds(s: State, step: Step)
    requires IdInv(s) && Enabled(s, step) && step.Upload?
    ensures IdInv(Apply(s, step))
  {
    var t := Apply(s, step);
    forall d | d in t.tasks ensures OwnsIds(t.tasks[d], d, t.reg) {
      if d == step.doc { UploadedOwn(s, step); } else { UploadedOther(s.tasks[d], d, s.reg, step.doc, step.tenant); }
    }
    UploadKeepsHomes(s, step);
  }

  lemma UploadedOwn(s: State, step: Step)
    requires IdInv(s) && Enabled(s, step) && step.Upload?
    ensures OwnsIds(Task(step.tenant, step.filename, [], false, 0, Live), step.doc,
                    s.reg.(docTenant := s.reg.docTenant[step.doc := step.tenant]))
  {
    forall c | c in s.reg.chunkHome ensures s.reg.chunkHome[c] != step.doc { assert HasHome(s.reg, c); }
    assert ChunkIds([]) == {};
  }

  lemma UploadedOther(t: Task, d: Id, reg: Registry, doc: Id, tenant: Tenant)
    requires OwnsIds(t, d, reg) && d != doc
    ensures OwnsIds(t, d, reg.(docTenant := reg.docTenant[doc := tenant]))
  {
  }

  lemma UploadKeepsHomes(s: State, step: Step)
    requires IdInv(s) && Enabled(s, step) && step.Upload?
    ensures var t := Apply(s, step);
            && (forall c :: c in t.reg.chunkHome ==> HasHome(t.reg, c))
            && (forall c :: c in t.vectors ==> HasHome(t.reg, c) && t.vectors[c].document == t.reg.chunkHome[c])
  {
    var t := Apply(s, step);
    forall c | c in t.reg.chunkHome ensures HasHome(t.reg, c) { assert HasHome(s.reg, c); }
  }

  lemma ChunkedOwn(t: Task, items: seq<Item>, withGraph: bool, progress: nat, doc: Id, reg: Registry)
    requires OwnsIds(t, doc, reg) && t.items == [] && Minted(items, doc, t, reg)
    ensures OwnsIds(t.(items := items, withGraph := withGraph, progress := progress), doc,
                    reg.(chunkHome := reg.chunkHome + Homes(items, doc)))
  {
  }

  lemma ChunkedOther(t: Task, d: Id, items: seq<Item>, doc: Id, reg: Registry)
    requires OwnsIds(t, d, reg) && d != doc
    requires forall k :: 0 <= k < |items| ==> items[k].chunk.id !in reg.chunkHome
    ensures OwnsIds(t, d, reg.(chunkHome := reg.chunkHome + Homes(items, doc)))
  {
    assert forall c :: c in ChunkIds(items) ==> c !in reg.chunkHome;
  }

  lemma ChunkedKeepsHomes(s: State, step: Step)
    requires IdInv(s) && Enabled(s, step) && step.Chunked?
    ensures var t := Apply(s, step);
            && (forall c :: c in t.reg.chunkHome ==> HasHome(t.reg, c))
            && (forall c :: c in t.vectors ==> HasHome(t.reg, c) && t.vectors[c].document == t.reg.chunkHome[c])
  {
    assert OwnsIds(s.tasks[step.doc], step.doc, s.reg);
    forall c | c in ChunkIds(step.items) ensures c !in s.reg.chunkHome {}
  }

  lemma ChunkedKeepsOwners(s: State, step: Step, d: Id)
    requires IdInv(s) && Enabled(s, step) && step.Chunked? && d in s.tasks
    ensures OwnsIds(Apply(s, step).tasks[d], d, Apply(s, step).reg)
  {
    assert OwnsIds(s.tasks[d], d, s.reg) && Minted(step.items, step.doc, s.tasks[step.doc], s.reg);
    if d == step.doc {
      ChunkedOwn(s.tasks[d], step.items, step.withGraph, if step.items == [] then 8 else 2, d, s.reg);
    } else {
      ChunkedOther(s.tasks[d], d, step.items, step.doc, s.reg);
    }
  }

  lemma ChunkedKeepsIds(s: State, step: Step)
    requires IdInv(s) && Enabled(s, step) && step.Chunked?
    ensures IdInv(Apply(s, step))
  {
    var t := Apply(s, step);
    ChunkedKeepsHomes(s, step);
    forall d | d in t.tasks ensures OwnsIds(t.tasks[d], d, t.reg) { ChunkedKeepsOwners(s, step, d); }
  }

  lemma {:induction false} PointsAt(items: seq<Item>, k: nat)
    requires k < |items|
    requires forall i, j :: 0 <= i < j < |items| ==> items[i].chunk.id != items[j].chunk.id
    ensures items[k].chunk.id in Points(items) && Points(items)[items[k].chunk.id] == PointOf(items[k].chunk)
  {
    if k < |items| - 1 { PointsAt(items[..|items| - 1], k); }
  }

  lemma {:induction false} PointsFrom(items: seq<Item>, c: Id) returns (k: nat)
    requires c in Points(items)
    ensures k < |items| && items[k].chunk.id == c && Points(items)[c] == PointOf(items[k].chunk)
  {
    var n := |items| - 1;
    if items[n].chunk.id == c { k := n; } else { k := PointsFrom(items[..n], c); }
  }

  lemma WriteKeepsIds(s: State, step: Step)
    requires IdInv(s) && Enabled(s, step) && step.WriteVectors?
    ensures IdInv(Apply(s, step))
  {
    var t, own := Apply(s, step), s.tasks[step.doc];
    assert OwnsIds(own, step.doc, s.reg);
    forall c | c in t.vectors ensures HasHome(t.reg, c) && t.vectors[c].document == t.reg.chunkHome[c] {
      if c in Points(own.items) && c in step.written {
        var k := PointsFrom(own.items, c);
        assert Belongs(own.items[k], step.doc, own) && c in ChunkIds(own.items);
        assert HasHome(s.reg, c);
      }
    }
    forall d | d in t.tasks ensures OwnsIds(t.tasks[d], d, t.reg) { assert OwnsIds(s.tasks[d], d, s.reg); }
  }

  /** Steps that rename nothing: same registry, same batches, at most fewer points. */
  ghost predicate SameBatches(s: State, t: State) {
    && t.reg == s.reg && t.tasks.Keys == s.tasks.Keys
    && (forall d :: d in s.tasks ==> SameBatch(s.tasks[d], t.tasks[d]))
    && (forall c :: c in t.vectors ==> c in s.vectors && t.vectors[c] == s.vectors[c])
  }

  predicate SameBatch(before: Task, after: Task) {
    && after.items == before.items && after.tenant == before.tenant && after.filename == before.filename
    && before.progress <= after.progress
  }

  lemma SameBatchesKeepIds(s: State, t: State)
    requires IdInv(s) && SameBatches(s, t)
    ensures IdInv(t)
  {
    forall d | d in t.tasks ensures OwnsIds(t.tasks[d], d, t.reg) {
      assert OwnsIds(s.tasks[d], d, s.reg) && SameBatch(s.tasks[d], t.tasks[d]);
    }
    forall d | d in t.tasks && t.tasks[d].progress < 2 ensures t.tasks[d].items == [] {
      assert SameBatch(s.tasks[d], t.tasks[d]);
    }
  }

  predicate TaskStep(step: Step) {
    step.SetRunning? || step.RunStatement? || step.SetCompleted? || step.SetFailed? || step.Abort? || step.Die?
  }

  lemma TaskStepKeepsBatches(s: State, step: Step)
    requires Enabled(s, step) && TaskStep(step)
    ensures SameBatches(s, Apply(s, step))
  {
    var t := Apply(s, step);
    assert t.tasks == s.tasks[step.doc := t.tasks[step.doc]];
  }

  lemma TaskStepKeepsIds(s: State, step: Step)
    requires IdInv(s) && Enabled(s, step) && TaskStep(step)
    ensures IdInv(Apply(s, step))
  {
    TaskStepKeepsBatches(s, step);
    SameBatchesKeepIds(s, Apply(s, step));
  }

  lemma DeletionStepKeepsIds(s: State, step: Step)
    requires IdInv(s) && Enabled(s, step) && (step.RequestDelete? || step.ContinueDelete? || step.CleanUp?)
    ensures IdInv(Apply(s, step))
  {
    DeletionStepKeepsBatches(s, step);
    SameBatchesKeepIds(s, Apply(s, step));
  }

  lemma DeletionStepKeepsBatches(s: State, step: Step)
    requires Enabled(s, step) && (step.RequestDelete? || step.ContinueDelete? || step.CleanUp?)
    ensures SameBatches(s, Apply(s, step))
  {
  }

  lemma StepKeepsIds(s: State, step: Step)
    requires IdInv(s) && Enabled(s, step)
    ensures IdInv(Apply(s, step))
  {
    if step.Upload? {
      UploadKeepsIds(s, step);
    } else if step.Chunked? {
      ChunkedKeepsIds(s, step);
    } else if step.WriteVectors? {
      WriteKeepsIds(s, step);
    } else if TaskStep(step) {
      TaskStepKeepsIds(s, step);
    } else {
      DeletionStepKeepsIds(s, step);
    }
  }

  // ---------------------------------------------------------------- the stores

  ghost predicate DeleteStarted(s: State, doc: Id) {
    exists i :: 0 <= i < |s.deletions| && s.deletions[i].document == doc
  }

  ghost predicate VectorsHold(vectors: map<Id, Point>, items: seq<Item>) {
    forall k :: 0 <= k < |items| ==>
        items[k].chunk.id in vectors && vectors[items[k].chunk.id] == PointOf(items[k].chunk)
  }

  ghost predicate GraphHolds(g: Graph, items: seq<Item>, doc: Id) {
    forall k :: 0 <= k < |items| ==> NodeHeld(g, items[k].chunk, doc)
  }

  predicate NodeHeld(g: Graph, c: GraphChunk, doc: Id) {
    c.id in g.chunks && g.chunks[c.id] == NodeOf(c) && (c.id, doc) in g.partOf
  }

  /** What a task has written is there, as far as it has got. */
  ghost predicate Written(t: Task, doc: Id, vectors: map<Id, Point>, g: Graph) {
    t.items != [] ==>
      && (t.progress >= 3 ==> VectorsHold(vectors, t.items))
      && (t.progress >= 4 ==> doc in g.docs)
      && (t.progress >= 5 ==> GraphHolds(g, t.items, doc))
  }

  ghost predicate WriteInv(s: State) {
    && (forall d :: d in s.tasks && !DeleteStarted(s, d) ==> Written(s.tasks[d], d, s.vectors, s.graph))
    && (forall d :: StatusOk(s, d))
  }

  // How single calls look from a document they do not concern.

  lemma OtherWrite(s: State, step: Step, d: Id)
    requires IdInv(s) && Enabled(s, step) && step.WriteVectors? && d in s.tasks && d != step.doc
    requires VectorsHold(s.vectors, s.tasks[d].items)
    ensures VectorsHold(Apply(s, step).vectors, s.tasks[d].items)
  {
    var items := s.tasks[d].items;
    assert OwnsIds(s.tasks[d], d, s.reg) && OwnsIds(s.tasks[step.doc], step.doc, s.reg);
    forall k | 0 <= k < |items| ensures items[k].chunk.id !in ChunkIds(s.tasks[step.doc].items) {
      assert items[k].chunk.id in ChunkIds(items);
    }
  }

  lemma OtherDeletion(s: State, del: Deletion, d: Id)
    requires IdInv(s) && d in s.tasks && d != del.document && VectorsHold(s.vectors, s.tasks[d].items)
    ensures VectorsHold(map c | c in s.vectors && !Owned(s.vectors[c], del) :: s.vectors[c], s.tasks[d].items)
  {
    var items := s.tasks[d].items;
    forall k | 0 <= k < |items| ensures !Owned(s.vectors[items[k].chunk.id], del) {
      assert Belongs(items[k], d, s.tasks[d]);
    }
  }

  lemma OwnMergeChunks(g: Graph, t: Task, doc: Id, reg: Registry)
    requires OwnsIds(t, doc, reg) && doc in g.docs
    ensures GraphHolds(MergeChunks(g, ChunkRows(t.items)), t.items, doc)
  {
    var after := MergeChunks(g, ChunkRows(t.items));
    forall k | 0 <= k < |t.items| ensures NodeHeld(after, t.items[k].chunk, doc) {
      ChunkMapAt(t.items, k);
      assert Belongs(t.items[k], doc, t);
      assert ChunkRows(t.items)[k].document == doc && ChunkRows(t.items)[k].id == t.items[k].chunk.id;
    }
  }

  lemma OtherMergeChunks(g: Graph, t: Task, doc: Id, other: Task, d: Id, reg: Registry)
    requires OwnsIds(t, doc, reg) && OwnsIds(other, d, reg) && d != doc && GraphHolds(g, other.items, d)
    ensures GraphHolds(MergeChunks(g, ChunkRows(t.items)), other.items, d)
  {
    ChunkMapKeys(ChunkRows(t.items));
    var after := MergeChunks(g, ChunkRows(t.items));
    forall k | 0 <= k < |other.items| ensures NodeHeld(after, other.items[k].chunk, d) {
      assert NodeHeld(g, other.items[k].chunk, d);
      assert other.items[k].chunk.id in ChunkIds(other.items);
      forall j | 0 <= j < |t.items| ensures ChunkRows(t.items)[j].id != other.items[k].chunk.id {
        assert t.items[j].chunk.id in ChunkIds(t.items);
      }
    }
  }

  lemma OneHome(g: Graph, reg: Registry, c: Id)
    requires Inv(g, reg)
    ensures forall d :: (c, d) in g.partOf ==> c in reg.chunkHome && reg.chunkHome[c] == d
  {
    forall d | (c, d) in g.partOf ensures c in reg.chunkHome && reg.chunkHome[c] == d { assert (c, d).1 == d; }
  }

  lemma OtherDeleteDocument(g: Graph, tenant: Tenant, document: Id, other: Task, d: Id, reg: Registry)
    requires Inv(g, reg) && OwnsIds(other, d, reg) && d != document
    ensures d in g.docs ==> d in DeleteDocument(g, tenant, document).docs
    ensures GraphHolds(g, other.items, d) ==> GraphHolds(DeleteDocument(g, tenant, document), other.items, d)
  {
    if GraphHolds(g, other.items, d) {
      var after := DeleteDocument(g, tenant, document);
      forall k | 0 <= k < |other.items| ensures NodeHeld(after, other.items[k].chunk, d) {
        var c := other.items[k].chunk;
        assert NodeHeld(g, c, d);
        OneHome(g, reg, c.id);
      }
    }
  }

  /** Statements other than a chunk merge only add documents, or leave documents, chunks and PART_OF alone. */
  lemma OtherStatement(g: Graph, t: Task, other: Task, d: Id)
    requires 3 <= t.progress <= 7 && t.progress != 4
    ensures d in g.docs ==> d in Statement(g, t).docs
    ensures GraphHolds(g, other.items, d) ==> GraphHolds(Statement(g, t), other.items, d)
  {
    if GraphHolds(g, other.items, d) {
      forall k | 0 <= k < |other.items| ensures NodeHeld(Statement(g, t), other.items[k].chunk, d) {
        assert NodeHeld(g, other.items[k].chunk, d);
      }
    }
  }

  lemma StatementWritten(s: State, doc: Id, d: Id)
    requires IdInv(s) && doc in s.tasks && 3 <= s.tasks[doc].progress <= 7 && d in s.tasks
    requires Written(s.tasks[d], d, s.vectors, s.graph)
    ensures Written(s.tasks[d], d, s.vectors, Statement(s.graph, s.tasks[doc]))
  {
    var t, other := s.tasks[doc], s.tasks[d];
    assert OwnsIds(t, doc, s.reg) && OwnsIds(other, d, s.reg);
    if t.progress != 4 {
      OtherStatement(s.graph, t, other, d);
    } else if d == doc {
      assert other.progress == 4;
    } else if other.items != [] && other.progress >= 5 {
      OtherMergeChunks(s.graph, t, doc, other, d, s.reg);
    }
  }

  lemma StatementAdvances(s: State, doc: Id)
    requires IdInv(s) && doc in s.tasks && 3 <= s.tasks[doc].progress <= 7
    requires Written(s.tasks[doc], doc, s.vectors, s.graph)
    ensures var t := s.tasks[doc];
            Written(t.(progress := NextProgress(t)), doc, s.vectors, Statement(s.graph, t))
  {
    var t := s.tasks[doc];
    assert OwnsIds(t, doc, s.reg);
    StatementWritten(s, doc, doc);
    if t.items != [] {
      if t.progress == 3 {
        assert Belongs(t.items[0], doc, t);
        var rows := [ToDocRow(t.items[0].chunk)];
        assert DocMap(rows) == DocMap(rows[..0])[doc := Doc(t.tenant, t.filename)];
      } else if t.progress == 4 {
        OwnMergeChunks(s.graph, t, doc, s.reg);
      }
    }
  }

  predicate Quiet(step: Step) {
    step.SetRunning? || step.SetCompleted? || step.SetFailed? || step.Abort? || step.Die? || step.RequestDelete?
    || step.Upload? || step.Chunked?
  }

  /** Steps that touch no store: what was written stays, and a new batch has nothing written yet. */
  lemma QuietWritten(s: State, step: Step, d: Id)
    requires Enabled(s, step) && Quiet(step) && d in Apply(s, step).tasks
    requires d in s.tasks ==> Written(s.tasks[d], d, s.vectors, s.graph)
    ensures Written(Apply(s, step).tasks[d], d, s.vectors, s.graph)
    ensures Apply(s, step).vectors == s.vectors && Apply(s, step).graph == s.graph
  {
  }

  lemma DeleteStartedBefore(s: State, step: Step, d: Id)
    requires Enabled(s, step)
    ensures DeleteStarted(s, d) ==> DeleteStarted(Apply(s, step), d)
  {
    if DeleteStarted(s, d) {
      var i :| 0 <= i < |s.deletions| && s.deletions[i].document == d;
      assert Apply(s, step).deletions[i].document == d;
    }
  }

  /** One document's writes, through any step. */
  lemma StepKeepsWritten(s: State, step: Step, d: Id)
    requires IdInv(s) && Inv(s.graph, s.reg) && Enabled(s, step)
    requires d in s.tasks && !DeleteStarted(s, d) ==> Written(s.tasks[d], d, s.vectors, s.graph)
    requires d in Apply(s, step).tasks && !DeleteStarted(Apply(s, step), d)
    ensures Written(Apply(s, step).tasks[d], d, Apply(s, step).vectors, Apply(s, step).graph)
  {
    DeleteStartedBefore(s, step, d);
    if Quiet(step) {
      QuietWritten(s, step, d);
    } else {
      TasksStay(s, step, d);
      StoreStepWritten(s, step, d);
    }
  }

  lemma TasksStay(s: State, step: Step, d: Id)
    requires Enabled(s, step) && !step.Upload? && d in Apply(s, step).tasks
    ensures d in s.tasks
  {
  }

  lemma StoreStepWritten(s: State, step: Step, d: Id)
    requires IdInv(s) && Inv(s.graph, s.reg) && Enabled(s, step) && !Quiet(step)
    requires d in s.tasks && Written(s.tasks[d], d, s.vectors, s.graph)
    requires d in Apply(s, step).tasks && !DeleteStarted(Apply(s, step), d)
    ensures Written(Apply(s, step).tasks[d], d, Apply(s, step).vectors, Apply(s, step).graph)
  {
    match step
    case WriteVectors(_, _, _) => WriteWritten(s, step, d);
    case RunStatement(_, _, _) => StatementStepWritten(s, step, d);
    case ContinueDelete(_, _) => DeleteStepWritten(s, step, d);
    case CleanUp(_) => CleanStepWritten(s, step, d);
  }

  lemma CleanStepWritten(s: State, step: Step, d: Id)
    requires Enabled(s, step) && step.CleanUp? && d in s.tasks
    requires Written(s.tasks[d], d, s.vectors, s.graph)
    ensures Written(Apply(s, step).tasks[d], d, Apply(s, step).vectors, Apply(s, step).graph)
  {
    CleanupWritten(s.graph, step.victims, s.tasks[d].items, d);
  }

  lemma StatementStepWritten(s: State, step: Step, d: Id)
    requires IdInv(s) && Enabled(s, step) && step.RunStatement? && d in s.tasks
    requires Written(s.tasks[d], d, s.vectors, s.graph)
    ensures Written(Apply(s, step).tasks[d], d, Apply(s, step).vectors, Apply(s, step).graph)
  {
    StatementWritten(s, step.doc, d);
    if d == step.doc { StatementAdvances(s, step.doc); }
  }

  lemma DeleteStepWritten(s: State, step: Step, d: Id)
    requires IdInv(s) && Inv(s.graph, s.reg) && Enabled(s, step) && step.ContinueDelete? && d in s.tasks
    requires Written(s.tasks[d], d, s.vectors, s.graph) && !DeleteStarted(Apply(s, step), d)
    ensures Written(Apply(s, step).tasks[d], d, Apply(s, step).vectors, Apply(s, step).graph)
  {
    DeletionGoesOn(s, step, d);
    DeletionWritten(s, step, d);
  }

  lemma DeletionGoesOn(s: State, step: Step, d: Id)
    requires Enabled(s, step) && step.ContinueDelete? && !DeleteStarted(Apply(s, step), d)
    ensures s.deletions[step.i].document != d
  {
    assert Apply(s, step).deletions[step.i].document == s.deletions[step.i].document;
  }

  lemma WriteWritten(s: State, step: Step, d: Id)
    requires IdInv(s) && Enabled(s, step) && step.WriteVectors? && d in s.tasks
    requires Written(s.tasks[d], d, s.vectors, s.graph)
    ensures Written(Apply(s, step).tasks[d], d, Apply(s, step).vectors, Apply(s, step).graph)
  {
    if d == step.doc {
      WriteAdvances(s, step);
    } else if s.tasks[d].items != [] && s.tasks[d].progress >= 3 {
      OtherWrite(s, step, d);
    }
  }

  lemma WriteAdvances(s: State, step: Step)
    requires IdInv(s) && Enabled(s, step) && step.WriteVectors?
    ensures var t := Apply(s, step); Written(t.tasks[step.doc], step.doc, t.vectors, t.graph)
  {
    var t, own := Apply(s, step), s.tasks[step.doc];
    assert OwnsIds(own, step.doc, s.reg);
    if step.ok {
      forall k | 0 <= k < |own.items|
        ensures own.items[k].chunk.id in t.vectors && t.vectors[own.items[k].chunk.id] == PointOf(own.items[k].chunk)
      {
        PointsAt(own.items, k);
        assert own.items[k].chunk.id in ChunkIds(own.items);
      }
    }
  }

  lemma DeletionWritten(s: State, step: Step, d: Id)
    requires IdInv(s) && Inv(s.graph, s.reg) && Enabled(s, step) && step.ContinueDelete? && d in s.tasks
    requires Written(s.tasks[d], d, s.vectors, s.graph) && d != s.deletions[step.i].document
    ensures Written(s.tasks[d], d, Apply(s, step).vectors, Apply(s, step).graph)
  {
    var own, del := s.tasks[d], s.deletions[step.i];
    assert OwnsIds(own, d, s.reg);
    if step.applied {
      if del.next == 0 && own.items != [] && own.progress >= 3 {
        OtherDeletion(s, del, d);
      } else if del.next == 1 {
        OtherDeleteDocument(s.graph, del.tenant, del.document, own, d, s.reg);
      }
    }
  }

  lemma CleanupWritten(g: Graph, victims: set<EntityKey>, items: seq<Item>, d: Id)
    ensures GraphHolds(g, items, d) ==> GraphHolds(DeleteEntities(g, victims), items, d)
  {
    if GraphHolds(g, items, d) {
      forall k | 0 <= k < |items| ensures NodeHeld(DeleteEntities(g, victims), items[k].chunk, d) {
        assert NodeHeld(g, items[k].chunk, d);
      }
    }
  }

  lemma StepKeepsWrites(s: State, step: Step)
    requires IdInv(s) && Inv(s.graph, s.reg) && WriteInv(s) && Enabled(s, step)
    ensures WriteInv(Apply(s, step))
  {
    var t := Apply(s, step);
    forall d | d in t.tasks && !DeleteStarted(t, d) ensures Written(t.tasks[d], d, t.vectors, t.graph) {
      StepKeepsWritten(s, step, d);
    }
    forall d ensures StatusOk(t, d) { StatusFollows(s, step, d); }
  }

  ghost predicate StatusOk(s: State, d: Id) {
    && (d in s.status ==> d in s.tasks && (s.status[d] == Completed ==> s.tasks[d].progress == 8))
    && (d in s.tasks && s.tasks[d].items == [] ==> s.tasks[d].progress < 2 || s.tasks[d].progress == 8)
  }

  /** A row says completed only once every store has been written. */
  lemma StatusFollows(s: State, step: Step, d: Id)
    requires WriteInv(s) && Enabled(s, step)
    ensures StatusOk(Apply(s, step), d)
  {
    assert StatusOk(s, d);
    if step.Upload? || step.SetRunning? || step.Chunked? {
      EarlyStatus(s, step, d);
    } else if step.WriteVectors? || step.RunStatement? {
      StoreStatus(s, step, d);
    } else {
      LateStatus(s, step, d);
    }
  }

  lemma EarlyStatus(s: State, step: Step, d: Id)
    requires StatusOk(s, d) && Enabled(s, step) && (step.Upload? || step.SetRunning? || step.Chunked?)
    ensures StatusOk(Apply(s, step), d)
  {
  }

  lemma StoreStatus(s: State, step: Step, d: Id)
    requires StatusOk(s, d) && Enabled(s, step) && (step.WriteVectors? || step.RunStatement?)
    ensures StatusOk(Apply(s, step), d)
  {
  }

  lemma LateStatus(s: State, step: Step, d: Id)
    requires StatusOk(s, d) && Enabled(s, step)
    requires !step.Upload? && !step.SetRunning? && !step.Chunked? && !step.WriteVectors? && !step.RunStatement?
    ensures StatusOk(Apply(s, step), d)
  {
  }

  // ---------------------------------------------------------------- main results

  ghost predicate SystemInv(s: State) {
    IdInv(s) && Inv(s.graph, s.reg) && WriteInv(s)
  }

  lemma StepKeepsSystem(s: State, step: Step)
    requires SystemInv(s) && Enabled(s, step)
    ensures SystemInv(Apply(s, step))
  {
    StepKeepsIds(s, step);
    StepKeepsGraph(s, step);
    StepKeepsWrites(s, step);
  }

  lemma {:induction false} RunKeeps(s: State, steps: seq<Step>)
    requires SystemInv(s) && Run(s, steps)
    ensures SystemInv(Exec(s, steps))
    decreases |steps|
  {
    if steps != [] {
      StepKeepsSystem(s, steps[0]);
      RunKeeps(Apply(s, steps[0]), steps[1..]);
    }
  }

  /** In every interleaving: no dangling edge, no edge across tenants, one document per chunk. */
  lemma GraphAlwaysSound(steps: seq<Step>)
    requires Run(INITIAL, steps)
    ensures Sound(Exec(INITIAL, steps).graph)
  {
    RunKeeps(INITIAL, steps);
    InvIsSound(Exec(INITIAL, steps).graph, Exec(INITIAL, steps).reg);
  }

  ghost function VectorIds(s: State, doc: Id): set<Id> {
    set c | c in s.vectors && s.vectors[c].document == doc
  }

  ghost function GraphIds(s: State, doc: Id): set<Id> {
    set c | c in s.graph.chunks && (c, doc) in s.graph.partOf
  }

  predicate NodeOfPoint(n: ChunkNode, p: Point) {
    n.tenant == p.tenant && n.page == p.page && n.text == p.text[..Min(500, |p.text|)]
  }

  lemma NodeMatchesPoint(c: GraphChunk)
    ensures NodeOfPoint(NodeOf(c), PointOf(c))
  {
    assert c.text[..|c.text|] == c.text;
  }

  /** Same chunks in both stores, same tenant and page, the graph text being the clipped vector text. */
  ghost predicate StoresAgree(s: State, doc: Id) {
    && VectorIds(s, doc) == GraphIds(s, doc)
    && forall c :: c in VectorIds(s, doc) ==> NodeOfPoint(s.graph.chunks[c], s.vectors[c])
  }

  /**
   * In every interleaving, with calls failing anywhere: a completed document nobody asked to delete is the same
   * in both stores.
   */
  lemma CompletedMeansStoresAgree(steps: seq<Step>, doc: Id)
    requires Run(INITIAL, steps)
    requires var s := Exec(INITIAL, steps); doc in s.status && s.status[doc] == Completed && !DeleteStarted(s, doc)
    ensures StoresAgree(Exec(INITIAL, steps), doc)
  {
    RunKeeps(INITIAL, steps);
    AgreeAt(Exec(INITIAL, steps), doc);
  }

  lemma AgreeAt(s: State, doc: Id)
    requires SystemInv(s) && doc in s.status && s.status[doc] == Completed && !DeleteStarted(s, doc)
    ensures StoresAgree(s, doc)
  {
    var t := s.tasks[doc];
    assert StatusOk(s, doc) && OwnsIds(t, doc, s.reg) && Written(t, doc, s.vectors, s.graph);
    NothingElse(s, doc);
    forall c | c in ChunkIds(t.items)
      ensures c in VectorIds(s, doc) && c in GraphIds(s, doc) && NodeOfPoint(s.graph.chunks[c], s.vectors[c])
    {
      var k :| 0 <= k < |t.items| && t.items[k].chunk.id == c;
      HeldInBoth(s, t, doc, k);
    }
  }

  /** No store has chunks of the document but those of its task. */
  lemma NothingElse(s: State, doc: Id)
    requires IdInv(s) && Inv(s.graph, s.reg) && doc in s.tasks
    ensures VectorIds(s, doc) <= ChunkIds(s.tasks[doc].items) && GraphIds(s, doc) <= ChunkIds(s.tasks[doc].items)
  {
    assert OwnsIds(s.tasks[doc], doc, s.reg);
    forall c | c in GraphIds(s, doc) ensures c in ChunkIds(s.tasks[doc].items) {
      assert s.reg.chunkHome[(c, doc).0] == doc;
    }
  }

  lemma HeldInBoth(s: State, t: Task, doc: Id, k: nat)
    requires k < |t.items| && OwnsIds(t, doc, s.reg) && VectorsHold(s.vectors, t.items)
    requires GraphHolds(s.graph, t.items, doc)
    ensures var c := t.items[k].chunk.id;
            c in VectorIds(s, doc) && c in GraphIds(s, doc) && NodeOfPoint(s.graph.chunks[c], s.vectors[c])
  {
    assert NodeHeld(s.graph, t.items[k].chunk, doc) && Belongs(t.items[k], doc, t);
    NodeMatchesPoint(t.items[k].chunk);
  }
}
