/** What deleting a document achieves (app/api/documents.py), in every interleaving. */
module DeletionProofs {
  import opened Extract
  import opened Graph
  import opened GraphInv
  import opened UpsertProofs
  import opened Ingest
  import opened IngestProofs

  ghost predicate NoPoints(s: State, doc: Id) {
    forall c :: c in s.vectors ==> s.vectors[c].document != doc
  }

  /** The chunk nodes minted for the document, whether or not they are still PART_OF it. */
  ghost function ChunkNodes(s: State, doc: Id): set<Id> {
    set c | c in s.graph.chunks && c in s.reg.chunkHome && s.reg.chunkHome[c] == doc
  }

  ghost predicate GraphClear(s: State, doc: Id) {
    doc !in s.graph.docs && ChunkNodes(s, doc) == {}
  }

  /** Neither store has anything of the document. */
  ghost predicate Nothing(s: State, doc: Id) {
    NoPoints(s, doc) && GraphClear(s, doc)
  }

  /** Every chunk node of the document is PART_OF it. */
  ghost predicate Linked(s: State, doc: Id) {
    forall c :: c in ChunkNodes(s, doc) ==> (c, doc) in s.graph.partOf
  }

  /** The task is past its vector write, or past writing at all. */
  predicate PointsSafe(s: State, doc: Id) {
    doc in s.tasks && (s.tasks[doc].life != Live || s.tasks[doc].progress >= 3)
  }

  /** The task is past its document and chunk statements, or past writing at all. */
  predicate GraphSafe(s: State, doc: Id) {
    doc in s.tasks && (s.tasks[doc].life != Live || s.tasks[doc].progress >= 5)
  }

  // ---------------------------------------------------------------- tenants of points and requests

  /** Points and delete requests carry the tenant of their document. */
  ghost predicate TenantInv(s: State) {
    && (forall c :: c in s.vectors ==> PointTenantOk(s.vectors[c], s.reg))
    && (forall i :: 0 <= i < |s.deletions| ==> RequestTenantOk(s.deletions[i], s.reg))
  }

  predicate PointTenantOk(p: Point, reg: Registry) {
    p.document in reg.docTenant && reg.docTenant[p.document] == p.tenant
  }

  predicate RequestTenantOk(d: Deletion, reg: Registry) {
    d.document in reg.docTenant && reg.docTenant[d.document] == d.tenant
  }

  lemma WriteKeepsTenants(s: State, step: Step)
    requires IdInv(s) && TenantInv(s) && Enabled(s, step) && step.WriteVectors?
    ensures TenantInv(Apply(s, step))
  {
    var t, own := Apply(s, step), s.tasks[step.doc];
    assert OwnsIds(own, step.doc, s.reg);
    forall c | c in t.vectors ensures PointTenantOk(t.vectors[c], t.reg) {
      if c in Points(own.items) && c in step.written {
        var k := PointsFrom(own.items, c);
        assert Belongs(own.items[k], step.doc, own);
      } else {
        assert PointTenantOk(s.vectors[c], s.reg);
      }
    }
  }

  lemma RequestKeepsTenants(s: State, step: Step)
    requires IdInv(s) && TenantInv(s) && Enabled(s, step) && step.RequestDelete?
    ensures TenantInv(Apply(s, step))
  {
    assert OwnsIds(s.tasks[step.doc], step.doc, s.reg);
    var asked := Deletion(step.tenant, step.doc, 0);
    forall i | 0 <= i < |s.deletions| + 1 ensures RequestTenantOk((s.deletions + [asked])[i], s.reg) {
      if i < |s.deletions| { assert RequestTenantOk(s.deletions[i], s.reg); }
    }
  }

  lemma ContinueKeepsTenants(s: State, step: Step)
    requires TenantInv(s) && Enabled(s, step) && step.ContinueDelete?
    ensures TenantInv(Apply(s, step))
  {
    var d := s.deletions[step.i];
    assert RequestTenantOk(d, s.reg);
    OnlyWritesAddPoints(s, step);
    var moved := s.deletions[step.i := d.(next := d.next + 1)];
    forall i | 0 <= i < |moved| ensures RequestTenantOk(moved[i], s.reg) {
      if i != step.i { assert RequestTenantOk(s.deletions[i], s.reg); }
    }
  }

  lemma OnlyWritesAddPoints(s: State, step: Step)
    requires Enabled(s, step) && !step.WriteVectors?
    ensures forall c :: c in Apply(s, step).vectors ==> c in s.vectors && Apply(s, step).vectors[c] == s.vectors[c]
  {
  }

  lemma UploadKeepsTenants(s: State, step: Step)
    requires TenantInv(s) && Enabled(s, step) && step.Upload?
    ensures TenantInv(Apply(s, step))
  {
    forall c | c in s.vectors ensures PointTenantOk(s.vectors[c], Apply(s, step).reg) {
      assert PointTenantOk(s.vectors[c], s.reg);
    }
    forall i | 0 <= i < |s.deletions| ensures RequestTenantOk(s.deletions[i], Apply(s, step).reg) {
      assert RequestTenantOk(s.deletions[i], s.reg);
    }
  }

  lemma OtherKeepsTenants(s: State, step: Step)
    requires TenantInv(s) && Enabled(s, step)
    requires !step.Upload? && !step.WriteVectors? && !step.RequestDelete? && !step.ContinueDelete?
    ensures Apply(s, step).vectors == s.vectors && Apply(s, step).deletions == s.deletions
    ensures Apply(s, step).reg.docTenant == s.reg.docTenant
  {
  }

  lemma StepKeepsTenants(s: State, step: Step)
    requires IdInv(s) && TenantInv(s) && Enabled(s, step)
    ensures TenantInv(Apply(s, step))
  {
    if step.Upload? {
      UploadKeepsTenants(s, step);
    } else if step.WriteVectors? {
      WriteKeepsTenants(s, step);
    } else if step.RequestDelete? {
      RequestKeepsTenants(s, step);
    } else if step.ContinueDelete? {
      ContinueKeepsTenants(s, step);
    } else {
      OtherKeepsTenants(s, step);
    }
  }

  ghost predicate FullInv(s: State) {
    SystemInv(s) && TenantInv(s)
  }

  lemma StepKeepsFull(s: State, step: Step)
    requires FullInv(s) && Enabled(s, step)
    ensures FullInv(Apply(s, step))
  {
    RunKeeps(s, [step]);
    assert [step][1..] == [];
    assert Exec(s, [step]) == Apply(s, step);
    StepKeepsTenants(s, step);
  }

  lemma {:induction false} RunKeepsFull(s: State, steps: seq<Step>)
    requires FullInv(s) && Run(s, steps)
    ensures FullInv(Exec(s, steps))
    decreases |steps|
  {
    if steps != [] {
      StepKeepsFull(s, steps[0]);
      RunKeepsFull(Apply(s, steps[0]), steps[1..]);
    }
  }

  // ---------------------------------------------------------------- gone stays gone

  lemma SafeStays(s: State, step: Step, doc: Id)
    requires Enabled(s, step)
    ensures PointsSafe(s, doc) ==> PointsSafe(Apply(s, step), doc)
    ensures GraphSafe(s, doc) ==> GraphSafe(Apply(s, step), doc)
  {
  }

  lemma StepKeepsNoPoints(s: State, step: Step, doc: Id)
    requires IdInv(s) && Enabled(s, step) && PointsSafe(s, doc) && NoPoints(s, doc)
    ensures NoPoints(Apply(s, step), doc)
  {
    if step.WriteVectors? { WriteKeepsNoPoints(s, step, doc); } else { OnlyWritesAddPoints(s, step); }
  }

  lemma WriteKeepsNoPoints(s: State, step: Step, doc: Id)
    requires IdInv(s) && Enabled(s, step) && step.WriteVectors? && PointsSafe(s, doc) && NoPoints(s, doc)
    ensures NoPoints(Apply(s, step), doc)
  {
    var own := s.tasks[step.doc];
    assert OwnsIds(own, step.doc, s.reg) && step.doc != doc;
    forall c | c in Points(own.items) ensures Points(own.items)[c].document != doc {
      var k := PointsFrom(own.items, c);
      assert Belongs(own.items[k], step.doc, own);
    }
  }

  /** Steps other than graph statements and new batches add neither nodes nor ids. */
  lemma OnlyStatementsAddNodes(s: State, step: Step)
    requires Enabled(s, step) && !step.RunStatement? && !step.Chunked?
    ensures Apply(s, step).graph.docs.Keys <= s.graph.docs.Keys
    ensures Apply(s, step).graph.chunks.Keys <= s.graph.chunks.Keys
    ensures Apply(s, step).reg.chunkHome == s.reg.chunkHome
  {
  }

  /** A new batch takes ids no chunk node has. */
  lemma ChunkedAddsNoNodes(s: State, step: Step, doc: Id)
    requires IdInv(s) && ChunksOk(s.graph, s.reg) && Enabled(s, step) && step.Chunked?
    ensures ChunkNodes(Apply(s, step), doc) == ChunkNodes(s, doc) && Apply(s, step).graph == s.graph
  {
    forall c | c in s.graph.chunks ensures c !in ChunkIds(step.items) {
      assert HasHome(s.reg, c);
    }
  }

  /** A statement of another task leaves the document's nodes and edges alone. */
  lemma OtherStatementNodes(g: Graph, t: Task, own: Id, doc: Id, reg: Registry)
    requires 3 <= t.progress <= 7 && own != doc && OwnsIds(t, own, reg)
    ensures doc in Statement(g, t).docs <==> doc in g.docs
    ensures forall c :: c in reg.chunkHome && reg.chunkHome[c] == doc ==>
              && (c in Statement(g, t).chunks <==> c in g.chunks)
              && ((c, doc) in Statement(g, t).partOf <==> (c, doc) in g.partOf)
  {
    if t.progress == 3 && t.items != [] {
      assert Belongs(t.items[0], own, t);
      OneDocRow(t.items[0].chunk);
    } else if t.progress == 4 {
      ChunkMapKeys(ChunkRows(t.items));
      forall k | 0 <= k < |t.items|
        ensures ChunkRows(t.items)[k].document == own && ChunkRows(t.items)[k].id in ChunkIds(t.items)
      {
        assert Belongs(t.items[k], own, t);
      }
    }
  }

  lemma OneDocRow(c: GraphChunk)
    ensures DocMap([ToDocRow(c)]).Keys == {c.document}
  {
    assert [ToDocRow(c)][..0] == [];
    assert DocMap([ToDocRow(c)]) == map[c.document := Doc(c.tenant, c.filename)];
  }

  /** Its own later statements add no document or chunk either. */
  lemma LaterStatementNodes(g: Graph, t: Task)
    requires 5 <= t.progress <= 7
    ensures Statement(g, t).docs == g.docs && Statement(g, t).chunks == g.chunks && Statement(g, t).partOf == g.partOf
  {
  }

  lemma StatementKeepsClear(s: State, step: Step, doc: Id)
    requires IdInv(s) && Enabled(s, step) && step.RunStatement? && GraphSafe(s, doc) && GraphClear(s, doc)
    ensures GraphClear(Apply(s, step), doc)
  {
    var t := s.tasks[step.doc];
    assert OwnsIds(t, step.doc, s.reg);
    if step.doc == doc {
      LaterStatementNodes(s.graph, t);
    } else {
      OtherStatementNodes(s.graph, t, step.doc, doc, s.reg);
      assert forall c :: c in ChunkNodes(Apply(s, step), doc) ==> c in ChunkNodes(s, doc);
    }
  }

  lemma StepKeepsClear(s: State, step: Step, doc: Id)
    requires IdInv(s) && ChunksOk(s.graph, s.reg) && Enabled(s, step) && GraphSafe(s, doc) && GraphClear(s, doc)
    ensures GraphClear(Apply(s, step), doc)
  {
    if step.RunStatement? {
      StatementKeepsClear(s, step, doc);
    } else if step.Chunked? {
      ChunkedAddsNoNodes(s, step, doc);
    } else {
      OnlyStatementsAddNodes(s, step);
      assert forall c :: c in ChunkNodes(Apply(s, step), doc) ==> c in ChunkNodes(s, doc);
    }
  }

  lemma {:induction false} NoPointsLater(s: State, steps: seq<Step>, doc: Id)
    requires FullInv(s) && Run(s, steps) && PointsSafe(s, doc) && NoPoints(s, doc)
    ensures NoPoints(Exec(s, steps), doc)
    decreases |steps|
  {
    if steps != [] {
      StepKeepsFull(s, steps[0]);
      SafeStays(s, steps[0], doc);
      StepKeepsNoPoints(s, steps[0], doc);
      NoPointsLater(Apply(s, steps[0]), steps[1..], doc);
    }
  }

  lemma {:induction false} ClearLater(s: State, steps: seq<Step>, doc: Id)
    requires FullInv(s) && Run(s, steps) && GraphSafe(s, doc) && GraphClear(s, doc)
    ensures GraphClear(Exec(s, steps), doc)
    decreases |steps|
  {
    if steps != [] {
      StepKeepsFull(s, steps[0]);
      SafeStays(s, steps[0], doc);
      StepKeepsClear(s, steps[0], doc);
      ClearLater(Apply(s, steps[0]), steps[1..], doc);
    }
  }

  // ---------------------------------------------------------------- a task that is not past writing can write

  lemma {:induction false} Longer(ids: set<string>) returns (n: nat)
    ensures forall c :: c in ids ==> |c| < n
  {
    n := 0;
    if ids != {} {
      var c :| c in ids;
      var m := Longer(ids - {c});
      n := if |c| < m then m else |c| + 1;
    }
  }

  lemma FreshId(ids: set<string>) returns (c: Id)
    ensures c !in ids
  {
    var n := Longer(ids);
    c := seq(n, _ => 'x');
  }

  /** A live task that has not written its chunk nodes can take its next step. */
  lemma NextStep(s: State, doc: Id) returns (step: Step)
    requires FullInv(s) && doc in s.tasks && s.tasks[doc].life == Live && s.tasks[doc].progress <= 3
    ensures Enabled(s, step) && doc in Apply(s, step).tasks
    ensures Apply(s, step).tasks[doc].life == Live && Apply(s, step).tasks[doc].progress == s.tasks[doc].progress + 1
  {
    var t := s.tasks[doc];
    match t.progress
    case 0 => step := SetRunning(doc, true, true);
    case 1 =>
      var c := FreshId(s.reg.chunkHome.Keys);
      var chunk := GraphChunk(c, t.tenant, doc, t.filename, 1, "");
      step := Chunked(doc, [Item(chunk, ChunkExtraction([], []))], false);
    case 2 => step := WriteVectors(doc, true, ChunkIds(t.items));
    case 3 => step := RunStatement(doc, true, true);
  }

  lemma HasItems(s: State, doc: Id)
    requires FullInv(s) && doc in s.tasks && 2 <= s.tasks[doc].progress <= 7
    ensures s.tasks[doc].items != []
    ensures s.tasks[doc].items[0].chunk.document == doc
            && s.tasks[doc].items[0].chunk.id in ChunkIds(s.tasks[doc].items)
    ensures s.tasks[doc].items[0].chunk.id in s.reg.chunkHome && s.reg.chunkHome[s.tasks[doc].items[0].chunk.id] == doc
  {
    var t := s.tasks[doc];
    assert StatusOk(s, doc) && OwnsIds(t, doc, s.reg);
    assert Belongs(t.items[0], doc, t);
  }

  lemma RunCons(s: State, step: Step, later: seq<Step>)
    requires Enabled(s, step) && Run(Apply(s, step), later)
    ensures Run(s, [step] + later) && Exec(s, [step] + later) == Exec(Apply(s, step), later)
  {
    assert ([step] + later)[1..] == later;
  }

  lemma {:induction false} PointsReturn(s: State, doc: Id) returns (steps: seq<Step>)
    requires FullInv(s) && doc in s.tasks && !PointsSafe(s, doc)
    ensures Run(s, steps) && !NoPoints(Exec(s, steps), doc)
    decreases 3 - s.tasks[doc].progress
  {
    if s.tasks[doc].progress == 2 {
      var step := WriteVectors(doc, true, ChunkIds(s.tasks[doc].items));
      steps := [step] + [];
      RunCons(s, step, []);
      WritesPoint(s, doc);
    } else {
      var step := NextStep(s, doc);
      StepKeepsFull(s, step);
      var later := PointsReturn(Apply(s, step), doc);
      steps := [step] + later;
      RunCons(s, step, later);
    }
  }

  lemma WritesPoint(s: State, doc: Id)
    requires FullInv(s) && At(s, doc, 2)
    ensures !NoPoints(Apply(s, WriteVectors(doc, true, ChunkIds(s.tasks[doc].items))), doc)
  {
    var t := s.tasks[doc];
    HasItems(s, doc);
    assert OwnsIds(t, doc, s.reg);
    PointsAt(t.items, 0);
    var after := Apply(s, WriteVectors(doc, true, ChunkIds(t.items)));
    assert t.items[0].chunk.id in after.vectors;
  }

  lemma {:induction false} GraphReturns(s: State, doc: Id) returns (steps: seq<Step>)
    requires FullInv(s) && doc in s.tasks && !GraphSafe(s, doc)
    ensures Run(s, steps) && !GraphClear(Exec(s, steps), doc)
    decreases 5 - s.tasks[doc].progress
  {
    if s.tasks[doc].progress == 4 {
      var step := RunStatement(doc, true, true);
      steps := [step] + [];
      RunCons(s, step, []);
      WritesNode(s, doc);
    } else {
      var step := NextStep(s, doc);
      StepKeepsFull(s, step);
      var later := GraphReturns(Apply(s, step), doc);
      steps := [step] + later;
      RunCons(s, step, later);
    }
  }

  lemma WritesNode(s: State, doc: Id)
    requires FullInv(s) && At(s, doc, 4)
    ensures !GraphClear(Apply(s, RunStatement(doc, true, true)), doc)
  {
    var t := s.tasks[doc];
    HasItems(s, doc);
    ChunkMapKeys(ChunkRows(t.items));
    assert ChunkRows(t.items)[0].id == t.items[0].chunk.id;
    var after := Apply(s, RunStatement(doc, true, true));
    assert t.items[0].chunk.id in ChunkNodes(after, doc);
  }

  // ---------------------------------------------------------------- exactly when gone is gone for good

  ghost predicate NeverPoints(s: State, doc: Id) {
    forall steps :: Run(s, steps) ==> NoPoints(Exec(s, steps), doc)
  }

  ghost predicate NeverNodes(s: State, doc: Id) {
    forall steps :: Run(s, steps) ==> GraphClear(Exec(s, steps), doc)
  }

  ghost predicate NeverAnything(s: State, doc: Id) {
    forall steps :: Run(s, steps) ==> Nothing(Exec(s, steps), doc)
  }

  /** Points that are gone stay gone if and only if the task is past its vector write. */
  lemma PointsStayGoneIff(s: State, doc: Id)
    requires FullInv(s) && doc in s.tasks && NoPoints(s, doc)
    ensures NeverPoints(s, doc) <==> PointsSafe(s, doc)
  {
    if PointsSafe(s, doc) {
      forall steps | Run(s, steps) ensures NoPoints(Exec(s, steps), doc) { NoPointsLater(s, steps, doc); }
    } else {
      var steps := PointsReturn(s, doc);
    }
  }

  /** Nodes that are gone stay gone if and only if the task is past its document and chunk statements. */
  lemma NodesStayGoneIff(s: State, doc: Id)
    requires FullInv(s) && doc in s.tasks && GraphClear(s, doc)
    ensures NeverNodes(s, doc) <==> GraphSafe(s, doc)
  {
    if GraphSafe(s, doc) {
      forall steps | Run(s, steps) ensures GraphClear(Exec(s, steps), doc) { ClearLater(s, steps, doc); }
    } else {
      var steps := GraphReturns(s, doc);
    }
  }

  // ---------------------------------------------------------------- the calls of a request

  /** The request's next call is `next`. */
  predicate Calls(s: State, i: nat, next: nat, doc: Id) {
    i < |s.deletions| && s.deletions[i].document == doc && s.deletions[i].next == next
  }

  lemma VectorCallClears(s: State, i: nat, doc: Id)
    requires TenantInv(s) && Calls(s, i, 0, doc)
    ensures NoPoints(Apply(s, ContinueDelete(i, true)), doc)
  {
    var d := s.deletions[i];
    forall c | c in s.vectors && s.vectors[c].document == doc ensures Owned(s.vectors[c], d) {
      assert PointTenantOk(s.vectors[c], s.reg) && RequestTenantOk(d, s.reg);
    }
  }

  /** The graph call leaves nothing of the document if and only if its chunk nodes are all PART_OF it. */
  lemma GraphCallClearsIff(s: State, i: nat, doc: Id)
    requires FullInv(s) && Calls(s, i, 1, doc)
    ensures GraphClear(Apply(s, ContinueDelete(i, true)), doc) <==> Linked(s, doc)
  {
    var d := s.deletions[i];
    var t := Apply(s, ContinueDelete(i, true));
    assert RequestTenantOk(d, s.reg);
    DeleteLeaves(s.graph, s.reg, d);
    assert forall c :: c in ChunkNodes(t, doc) <==> c in ChunkNodes(s, doc) && (c, doc) !in s.graph.partOf;
  }

  lemma DeleteLeaves(g: Graph, reg: Registry, d: Deletion)
    requires DocsOk(g, reg) && PartOfOk(g, reg) && RequestTenantOk(d, reg)
    ensures var after := DeleteDocument(g, d.tenant, d.document);
            && d.document !in after.docs
            && forall c :: c in after.chunks <==> c in g.chunks && (c, d.document) !in g.partOf
  {
    assert forall c :: (c, d.document) in g.partOf ==> (c, d.document).1 in g.docs;
  }

  /**
   * Main result: with the points gone and the graph call of a request taking effect, nothing of the document is
   * left then or ever after, if and only if its chunk nodes were all PART_OF it and its task is past its document
   * and chunk statements.
   */
  lemma NothingEverAfterIff(s: State, i: nat, doc: Id)
    requires FullInv(s) && doc in s.tasks && NoPoints(s, doc) && Calls(s, i, 1, doc)
    ensures NeverAnything(Apply(s, ContinueDelete(i, true)), doc) <==> Linked(s, doc) && GraphSafe(s, doc)
  {
    var step := ContinueDelete(i, true);
    var t := Apply(s, step);
    StepKeepsFull(s, step);
    OnlyWritesAddPoints(s, step);
    GraphCallClearsIff(s, i, doc);
    if Linked(s, doc) && GraphSafe(s, doc) {
      forall steps | Run(t, steps) ensures Nothing(Exec(t, steps), doc) {
        NoPointsLater(t, steps, doc);
        ClearLater(t, steps, doc);
      }
    } else if Linked(s, doc) {
      var steps := GraphReturns(t, doc);
    } else {
      assert Run(t, []) && Exec(t, []) == t;
    }
  }

  /** The same over a run from the start, the vector call having found the task past its vector write. */
  lemma DeletionIsFinalIff(before: seq<Step>, i: nat, mid: seq<Step>, doc: Id)
    requires Run(INITIAL, before)
    requires PointsSafe(Exec(INITIAL, before), doc) && Calls(Exec(INITIAL, before), i, 0, doc)
    requires Run(Apply(Exec(INITIAL, before), ContinueDelete(i, true)), mid)
    requires Calls(Exec(Apply(Exec(INITIAL, before), ContinueDelete(i, true)), mid), i, 1, doc)
    ensures var s := Exec(Apply(Exec(INITIAL, before), ContinueDelete(i, true)), mid);
            NeverAnything(Apply(s, ContinueDelete(i, true)), doc) <==> Linked(s, doc) && GraphSafe(s, doc)
  {
    var s0 := Exec(INITIAL, before);
    RunKeepsFull(INITIAL, before);
    FirstCall(s0, i, doc);
    var s1 := Apply(s0, ContinueDelete(i, true));
    NoPointsLater(s1, mid, doc);
    RunKeepsFull(s1, mid);
    TasksRemain(s1, mid, doc);
    NothingEverAfterIff(Exec(s1, mid), i, doc);
  }

  lemma FirstCall(s: State, i: nat, doc: Id)
    requires FullInv(s) && PointsSafe(s, doc) && Calls(s, i, 0, doc)
    ensures var t := Apply(s, ContinueDelete(i, true)); FullInv(t) && PointsSafe(t, doc) && NoPoints(t, doc)
  {
    StepKeepsFull(s, ContinueDelete(i, true));
    SafeStays(s, ContinueDelete(i, true), doc);
    VectorCallClears(s, i, doc);
  }

  lemma {:induction false} TasksRemain(s: State, steps: seq<Step>, doc: Id)
    requires Run(s, steps) && doc in s.tasks
    ensures doc in Exec(s, steps).tasks
    decreases |steps|
  {
    if steps != [] {
      TaskRemains(s, steps[0], doc);
      TasksRemain(Apply(s, steps[0]), steps[1..], doc);
    }
  }

  lemma TaskRemains(s: State, step: Step, doc: Id)
    requires Enabled(s, step) && doc in s.tasks
    ensures doc in Apply(s, step).tasks
  {
  }
}
