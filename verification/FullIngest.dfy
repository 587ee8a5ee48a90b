/** An ingestion nothing comes in between of (app/ingest/pipeline.py). */
module FullIngest {
  import opened Graph
  import opened GraphInv
  import opened UpsertProofs
  import opened Ingest

  /** The graph once a task has run all the statements it has left. */
  function RunAll(g: Graph, t: Task): Graph
    requires 3 <= t.progress <= 8
    decreases 8 - t.progress
  {
    if t.progress == 8 then g else RunAll(Statement(g, t), t.(progress := NextProgress(t)))
  }

  predicate OneDocument(items: seq<Item>) {
    forall k :: 0 <= k < |items| ==> ToDocRow(items[k].chunk) == ToDocRow(items[0].chunk)
  }

  lemma OneDocRow(items: seq<Item>)
    requires items != [] && OneDocument(items)
    ensures OneNamePerDocument(DocRows(items)) && SameRows([ToDocRow(items[0].chunk)], DocRows(items))
  {
    assert DocRows(items)[0] == ToDocRow(items[0].chunk);
  }

  /** Chunk rows are all a task without extraction writes. */
  lemma SkeletonInARow(g: Graph, t: Task)
    requires t.progress == 3 && t.items != [] && (t.withGraph ==> EntityRows(t.items) == map[])
    ensures RunAll(g, t) == Skeleton(g, [ToDocRow(t.items[0].chunk)], ChunkRows(t.items))
  {
    var t4 := t.(progress := 4);
    var g4 := Statement(g, t);
    assert RunAll(g, t) == RunAll(g4, t4) == RunAll(Statement(g4, t4), t4.(progress := 8)) == Statement(g4, t4);
  }

  lemma FromEntities(g: Graph, t: Task)
    requires t.progress == 5
    ensures var g6 := MergeMentions(MergeEntities(g, EntityRows(t.items)), MentionRows(t.items));
            RunAll(g, t) == if RelationRows(t.items) == [] then g6 else MergeRelations(g6, RelationRows(t.items))
  {
    var t6 := t.(progress := 6);
    var t7 := t.(progress := 7);
    var t8 := t.(progress := 8);
    var g6 := MergeEntities(g, EntityRows(t.items));
    var g7 := MergeMentions(g6, MentionRows(t.items));
    assert RunAll(g, t) == RunAll(g6, t6);
    if RelationRows(t.items) == [] {
      assert RunAll(g6, t6) == RunAll(g7, t8) == g7;
    } else {
      assert RunAll(g6, t6) == RunAll(g7, t7) == RunAll(MergeRelations(g7, RelationRows(t.items)), t8);
    }
  }

  lemma ToEntities(g: Graph, t: Task)
    requires t.progress == 3 && t.items != [] && t.withGraph && EntityRows(t.items) != map[]
    ensures RunAll(g, t) ==
              RunAll(MergeChunks(MergeDocs(g, [ToDocRow(t.items[0].chunk)]), ChunkRows(t.items)), t.(progress := 5))
  {
    var t4 := t.(progress := 4);
    var g4 := Statement(g, t);
    assert RunAll(g, t) == RunAll(g4, t4) == RunAll(Statement(g4, t4), t4.(progress := 5));
  }

  /** Main result: a task's statements in a row are one whole upsert, with extraction, and the skeleton without. */
  lemma StatementsInARow(g: Graph, t: Task)
    requires t.progress == 3 && t.items != [] && OneDocument(t.items)
    ensures RunAll(g, t) == if t.withGraph then Upsert(g, t.items)
                            else Skeleton(g, DocRows(t.items), ChunkRows(t.items))
  {
    var rows := [ToDocRow(t.items[0].chunk)];
    OneDocRow(t.items);
    if t.withGraph && EntityRows(t.items) != map[] {
      ToEntities(g, t);
      FromEntities(MergeChunks(MergeDocs(g, rows), ChunkRows(t.items)), t.(progress := 5));
      RowOrderIrrelevant(g, rows, t.items);
    } else {
      SkeletonInARow(g, t);
      if t.withGraph { RowOrderIrrelevant(g, rows, t.items); } else { SkeletonRows(g, rows, t.items); }
    }
  }

  lemma SkeletonRows(g: Graph, listed: seq<DocRow>, items: seq<Item>)
    requires OneNamePerDocument(DocRows(items)) && SameRows(listed, DocRows(items))
    ensures Skeleton(g, listed, ChunkRows(items)) == Skeleton(g, DocRows(items), ChunkRows(items))
  {
    SameDocMap(listed, items);
  }

  // ---------------------------------------------------------------- the run

  function StatementSteps(doc: Id, t: Task): seq<Step>
    requires 3 <= t.progress <= 8
    decreases 8 - t.progress
  {
    if t.progress == 8 then []
    else [RunStatement(doc, true, true)] + StatementSteps(doc, t.(progress := NextProgress(t)))
  }

  lemma {:induction false} StatementsRun(s: State, doc: Id)
    requires doc in s.tasks && s.tasks[doc].life == Live && 3 <= s.tasks[doc].progress <= 8
    ensures var t := s.tasks[doc];
            && Run(s, StatementSteps(doc, t))
            && Exec(s, StatementSteps(doc, t))
               == s.(graph := RunAll(s.graph, t), tasks := s.tasks[doc := t.(progress := 8)])
    decreases 8 - s.tasks[doc].progress
  {
    var t := s.tasks[doc];
    if t.progress == 8 {
      assert s.tasks == s.tasks[doc := t];
    } else {
      var step := RunStatement(doc, true, true);
      var next := Apply(s, step);
      var steps := StatementSteps(doc, next.tasks[doc]);
      StatementsRun(next, doc);
      assert ([step] + steps)[1..] == steps;
      assert s.tasks[doc := next.tasks[doc]][doc := t.(progress := 8)] == s.tasks[doc := t.(progress := 8)];
    }
  }

  lemma {:induction false} RunAppend(s: State, first: seq<Step>, second: seq<Step>)
    requires Run(s, first) && Run(Exec(s, first), second)
    ensures Run(s, first + second) && Exec(s, first + second) == Exec(Exec(s, first), second)
    decreases |first|
  {
    if first == [] {
      assert first + second == second;
    } else {
      RunAppend(Apply(s, first[0]), first[1..], second);
      assert (first + second)[0] == first[0] && (first + second)[1..] == first[1..] + second;
    }
  }

  lemma OneStep(s: State, step: Step)
    requires Enabled(s, step)
    ensures Run(s, [step]) && Exec(s, [step]) == Apply(s, step)
  {
    var none := [step][1..];
    assert none == [] && Exec(Apply(s, step), none) == Apply(s, step);
  }

  lemma RunMore(s: State, steps: seq<Step>, step: Step)
    requires Run(s, steps) && Enabled(Exec(s, steps), step)
    ensures Run(s, steps + [step]) && Exec(s, steps + [step]) == Apply(Exec(s, steps), step)
  {
    OneStep(Exec(s, steps), step);
    RunAppend(s, steps, [step]);
  }

  lemma FourSteps(s: State, a: Step, b: Step, c: Step, d: Step)
    requires Enabled(s, a) && Enabled(Apply(s, a), b) && Enabled(Apply(Apply(s, a), b), c)
    requires Enabled(Apply(Apply(Apply(s, a), b), c), d)
    ensures Run(s, [a, b, c, d]) && Exec(s, [a, b, c, d]) == Apply(Apply(Apply(Apply(s, a), b), c), d)
  {
    OneStep(s, a);
    RunMore(s, [a], b);
    RunMore(s, [a] + [b], c);
    RunMore(s, [a] + [b] + [c], d);
    assert [a, b, c, d] == [a] + [b] + [c] + [d];
  }

  /** The batch of an upload, under ids nobody has used. */
  predicate Batch(items: seq<Item>, doc: Id, tenant: Tenant, filename: string, reg: Registry) {
    items != [] && Minted(items, doc, Task(tenant, filename, [], false, 1, Live), reg)
  }

  predicate NewDocument(s: State, doc: Id) {
    doc !in s.reg.docTenant && doc !in s.tasks && doc !in s.status
  }

  /** The document's row and task, with everything else as in `s`. */
  predicate Reached(s: State, t: State, doc: Id, status: Status, task: Task) {
    && doc in t.tasks && t.tasks[doc] == task && t.status == s.status[doc := status]
    && t.vectors == s.vectors && t.graph == s.graph && t.deletions == s.deletions
  }

  lemma Started(s: State, doc: Id, tenant: Tenant, filename: string)
    requires NewDocument(s, doc)
    ensures var first, second := Upload(doc, tenant, filename), SetRunning(doc, true, true);
            && Enabled(s, first) && Enabled(Apply(s, first), second)
            && Reached(s, Apply(Apply(s, first), second), doc, Running, Task(tenant, filename, [], false, 1, Live))
            && Apply(Apply(s, first), second).reg.chunkHome == s.reg.chunkHome
  {
  }

  lemma Cut(s: State, t: State, doc: Id, tenant: Tenant, filename: string, items: seq<Item>, withGraph: bool)
    requires Reached(s, t, doc, Running, Task(tenant, filename, [], false, 1, Live))
    requires t.reg.chunkHome == s.reg.chunkHome && Batch(items, doc, tenant, filename, s.reg)
    ensures Enabled(t, Chunked(doc, items, withGraph))
    ensures Reached(s, Apply(t, Chunked(doc, items, withGraph)), doc, Running,
                    Task(tenant, filename, items, withGraph, 2, Live))
  {
  }

  lemma VectorsWritten(s: State, t: State, doc: Id, task: Task)
    requires Reached(s, t, doc, Running, task) && task.life == Live && task.progress == 2
    ensures var step := WriteVectors(doc, true, ChunkIds(task.items));
            && Enabled(t, step)
            && Reached(s.(vectors := s.vectors + Points(task.items)), Apply(t, step), doc, Running,
                       task.(progress := 3))
  {
    AllPoints(task.items);
  }

  /** Upload, mark running, cut into chunks and write the vectors. */
  function OpeningSteps(doc: Id, tenant: Tenant, filename: string, items: seq<Item>, withGraph: bool): seq<Step> {
    [Upload(doc, tenant, filename), SetRunning(doc, true, true), Chunked(doc, items, withGraph),
     WriteVectors(doc, true, ChunkIds(items))]
  }

  lemma WrittenFirst(s: State, doc: Id, tenant: Tenant, filename: string, items: seq<Item>, withGraph: bool)
    requires NewDocument(s, doc) && Batch(items, doc, tenant, filename, s.reg)
    ensures var steps := OpeningSteps(doc, tenant, filename, items, withGraph);
            && Run(s, steps)
            && Reached(s.(vectors := s.vectors + Points(items)), Exec(s, steps), doc, Running,
                       Task(tenant, filename, items, withGraph, 3, Live))
    ensures OneDocument(items)
  {
    OwnDocument(items, doc, Task(tenant, filename, [], false, 1, Live), s.reg);
    var u0, u1 := Upload(doc, tenant, filename), SetRunning(doc, true, true);
    var u2, u3 := Chunked(doc, items, withGraph), WriteVectors(doc, true, ChunkIds(items));
    Started(s, doc, tenant, filename);
    var s2 := Apply(Apply(s, u0), u1);
    Cut(s, s2, doc, tenant, filename, items, withGraph);
    VectorsWritten(s, Apply(s2, u2), doc, Task(tenant, filename, items, withGraph, 2, Live));
    FourSteps(s, u0, u1, u2, u3);
  }

  lemma {:induction false} AllPoints(items: seq<Item>)
    ensures Points(items).Keys == ChunkIds(items)
    ensures (map c | c in Points(items) && c in ChunkIds(items) :: Points(items)[c]) == Points(items)
  {
    if items != [] {
      var n := |items| - 1;
      AllPoints(items[..n]);
      forall id | id in ChunkIds(items) ensures id in Points(items) {
        var k :| 0 <= k < |items| && items[k].chunk.id == id;
        if k < n { assert items[..n][k].chunk.id == id; }
      }
      forall id | id in Points(items) ensures id in ChunkIds(items) {
        if id == items[n].chunk.id { assert items[n].chunk.id in ChunkIds(items); } else {
          var k :| 0 <= k < n && items[..n][k].chunk.id == id;
          assert items[k].chunk.id == id;
        }
      }
    }
  }

  lemma Finished(s: State, t: State, doc: Id)
    requires doc in s.status && At(t, doc, 8) && t.status == s.status
    ensures Enabled(t, SetCompleted(doc, true, true))
    ensures var u := Apply(t, SetCompleted(doc, true, true));
            && u.status == s.status[doc := Completed] && u.vectors == t.vectors && u.graph == t.graph
            && u.deletions == t.deletions
  {
  }

  /** The statements and the last mark. */
  lemma GraphLast(s: State, doc: Id)
    requires At(s, doc, 3) && doc in s.status && s.tasks[doc].items != [] && OneDocument(s.tasks[doc].items)
    ensures var steps := StatementSteps(doc, s.tasks[doc]) + [SetCompleted(doc, true, true)];
            && Run(s, steps)
            && Ingested(s, Exec(s, steps), doc, s.tasks[doc].items, s.tasks[doc].withGraph)
  {
    var statements := StatementSteps(doc, s.tasks[doc]);
    StatementsRun(s, doc);
    StatementsInARow(s.graph, s.tasks[doc]);
    Finished(s, Exec(s, statements), doc);
    RunMore(s, statements, SetCompleted(doc, true, true));
  }

  /** Completed, with one whole upsert in the graph, or the skeleton. */
  predicate Ingested(s: State, t: State, doc: Id, items: seq<Item>, withGraph: bool) {
    && t.status == s.status[doc := Completed] && t.vectors == s.vectors && t.deletions == s.deletions
    && t.graph == if withGraph then Upsert(s.graph, items) else Skeleton(s.graph, DocRows(items), ChunkRows(items))
  }

  /** What an ingestion does when nothing comes in between. */
  function IngestSteps(doc: Id, tenant: Tenant, filename: string, items: seq<Item>, withGraph: bool): seq<Step> {
    OpeningSteps(doc, tenant, filename, items, withGraph)
    + (StatementSteps(doc, Task(tenant, filename, items, withGraph, 3, Live)) + [SetCompleted(doc, true, true)])
  }

  /**
   * Main result: from any state, an ingestion nothing comes in between of ends completed, with the points of its
   * batch in the vector store and one whole upsert, or the skeleton, in the graph.
   */
  lemma UndisturbedIngestion(s: State, doc: Id, tenant: Tenant, filename: string, items: seq<Item>, withGraph: bool)
    requires NewDocument(s, doc) && Batch(items, doc, tenant, filename, s.reg)
    ensures Run(s, IngestSteps(doc, tenant, filename, items, withGraph))
    ensures Ingested(s.(vectors := s.vectors + Points(items)),
                     Exec(s, IngestSteps(doc, tenant, filename, items, withGraph)), doc, items, withGraph)
  {
    var first := OpeningSteps(doc, tenant, filename, items, withGraph);
    var rest := StatementSteps(doc, Task(tenant, filename, items, withGraph, 3, Live))
                + [SetCompleted(doc, true, true)];
    WrittenFirst(s, doc, tenant, filename, items, withGraph);
    GraphLast(Exec(s, first), doc);
    RunAppend(s, first, rest);
    IngestedFrom(s.(vectors := s.vectors + Points(items)), Exec(s, first), Exec(Exec(s, first), rest), doc,
                 Task(tenant, filename, items, withGraph, 3, Live));
  }

  lemma IngestedFrom(s: State, t: State, u: State, doc: Id, task: Task)
    requires Reached(s, t, doc, Running, task) && Ingested(t, u, doc, task.items, task.withGraph)
    ensures Ingested(s, u, doc, task.items, task.withGraph)
  {
  }

  lemma OwnDocument(items: seq<Item>, doc: Id, t: Task, reg: Registry)
    requires items != [] && Minted(items, doc, t, reg)
    ensures OneDocument(items)
  {
    forall k | 0 <= k < |items| ensures ToDocRow(items[k].chunk) == ToDocRow(items[0].chunk) {
      assert Belongs(items[k], doc, t) && Belongs(items[0], doc, t);
    }
  }
}
