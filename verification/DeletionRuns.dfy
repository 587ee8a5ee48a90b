/** Runs in which deletion does not do what its caller may expect (app/api/documents.py). */
module DeletionRuns {
  import opened Graph
  import opened GraphInv
  import opened UpsertProofs
  import opened Ingest
  import opened IngestProofs
  import opened DeletionProofs

  ghost predicate Reachable(s: State) {
    exists steps :: Run(INITIAL, steps) && Exec(INITIAL, steps) == s
  }

  lemma {:induction false} Extend(s: State, steps: seq<Step>, step: Step)
    requires Run(s, steps) && Enabled(Exec(s, steps), step)
    ensures Run(s, steps + [step]) && Exec(s, steps + [step]) == Apply(Exec(s, steps), step)
    decreases |steps|
  {
    if steps == [] {
      assert ([] + [step])[1..] == [];
    } else {
      Extend(Apply(s, steps[0]), steps[1..], step);
      assert (steps + [step])[1..] == steps[1..] + [step];
    }
  }

  lemma Then(s: State, step: Step)
    requires Reachable(s) && Enabled(s, step)
    ensures Reachable(Apply(s, step))
  {
    var steps :| Run(INITIAL, steps) && Exec(INITIAL, steps) == s;
    Extend(INITIAL, steps, step);
  }

  /** Where the task of a document of one chunk stands, whether the row is there, and the delete requests so far. */
  predicate Working(s: State, doc: Id, it: Item, progress: nat, life: Life, row: bool, requests: seq<Deletion>) {
    && it.chunk.document == doc
    && doc in s.tasks && s.tasks[doc] == Task(it.chunk.tenant, it.chunk.filename, [it], false, progress, life)
    && (doc in s.status <==> row) && s.deletions == requests
  }

  function Request(it: Item, next: nat): Deletion { Deletion(it.chunk.tenant, it.chunk.document, next) }

  // ---------------------------------------------------------------- the steps these runs are made of

  lemma Started(doc: Id, it: Item) returns (s: State)
    ensures Reachable(s) && s == State(map[], EMPTY, map[doc := Running],
                                       map[doc := Task(it.chunk.tenant, it.chunk.filename, [], false, 1, Live)], [],
                                       Registry(map[doc := it.chunk.tenant], map[]))
  {
    assert Run(INITIAL, []);
    assert Reachable(INITIAL);
    var upload := Upload(doc, it.chunk.tenant, it.chunk.filename);
    Then(INITIAL, upload);
    s := Apply(INITIAL, upload);
    Then(s, SetRunning(doc, true, true));
    s := Apply(s, SetRunning(doc, true, true));
  }

  lemma Cut(doc: Id, it: Item) returns (s: State)
    requires it.chunk.document == doc
    ensures Reachable(s) && Working(s, doc, it, 2, Live, true, []) && s.vectors == map[] && s.graph == EMPTY
  {
    s := Started(doc, it);
    Then(s, Chunked(doc, [it], false));
    s := Apply(s, Chunked(doc, [it], false));
  }

  lemma WritesPoints(s: State, doc: Id, it: Item, row: bool, requests: seq<Deletion>) returns (t: State)
    requires Reachable(s) && Working(s, doc, it, 2, Live, row, requests) && s.vectors == map[]
    ensures Reachable(t) && Working(t, doc, it, 3, Live, row, requests) && t.graph == s.graph
    ensures t.vectors == map[it.chunk.id := PointOf(it.chunk)]
  {
    var write := WriteVectors(doc, true, ChunkIds([it]));
    Then(s, write);
    t := Apply(s, write);
    assert [it][0].chunk.id in ChunkIds([it]);
    assert Points([it]) == map[it.chunk.id := PointOf(it.chunk)] by { assert [it][..0] == []; }
  }

  lemma WritesDoc(s: State, doc: Id, it: Item, row: bool, requests: seq<Deletion>) returns (t: State)
    requires Reachable(s) && Working(s, doc, it, 3, Live, row, requests)
    ensures Reachable(t) && Working(t, doc, it, 4, Live, row, requests) && t.vectors == s.vectors
    ensures HasDocument(t.graph, it.chunk.tenant, doc)
    ensures t.graph.chunks == s.graph.chunks && t.graph.partOf == s.graph.partOf
  {
    Then(s, RunStatement(doc, true, true));
    t := Apply(s, RunStatement(doc, true, true));
    OneDocRow(it.chunk);
    DocMapGet([ToDocRow(it.chunk)], 0);
  }

  lemma WritesChunk(s: State, doc: Id, it: Item, row: bool, requests: seq<Deletion>) returns (t: State)
    requires Reachable(s) && Working(s, doc, it, 4, Live, row, requests)
    requires s.graph.chunks == map[] && s.graph.partOf == {}
    ensures Reachable(t) && Working(t, doc, it, 8, Live, row, requests) && t.vectors == s.vectors
    ensures t.graph.docs == s.graph.docs && t.graph.chunks.Keys == {it.chunk.id}
    ensures t.graph.partOf == if doc in s.graph.docs then {(it.chunk.id, doc)} else {}
  {
    Then(s, RunStatement(doc, true, true));
    t := Apply(s, RunStatement(doc, true, true));
    ChunkWritten(s.graph, doc, it);
  }

  lemma ChunkWritten(g: Graph, doc: Id, it: Item)
    requires g.chunks == map[] && g.partOf == {} && it.chunk.document == doc
    ensures var after := MergeChunks(g, ChunkRows([it]));
            && after.chunks.Keys == {it.chunk.id}
            && after.partOf == if doc in g.docs then {(it.chunk.id, doc)} else {}
  {
    var row := ToChunkRow(it.chunk);
    assert ChunkRows([it]) == [row] && [row][..0] == [];
    assert ChunkMap([row]) == map[row.id := ChunkNode(row.tenant, row.page, row.text)];
    assert [row][0].document == doc;
  }

  lemma Completes(s: State, doc: Id, it: Item, row: bool, requests: seq<Deletion>) returns (t: State)
    requires Reachable(s) && Working(s, doc, it, 8, Live, row, requests)
    ensures Reachable(t) && Working(t, doc, it, 8, Ended, row, requests) && t.vectors == s.vectors && t.graph == s.graph
  {
    Then(s, SetCompleted(doc, true, true));
    t := Apply(s, SetCompleted(doc, true, true));
  }

  lemma Asks(s: State, doc: Id, it: Item, progress: nat, life: Life, requests: seq<Deletion>) returns (t: State)
    requires Reachable(s) && Working(s, doc, it, progress, life, true, requests)
    ensures Reachable(t) && Working(t, doc, it, progress, life, true, requests + [Request(it, 0)])
    ensures t.vectors == s.vectors && t.graph == s.graph
  {
    Then(s, RequestDelete(it.chunk.tenant, doc));
    t := Apply(s, RequestDelete(it.chunk.tenant, doc));
  }

  /** A call of the last request, with or without effect. */
  lemma Deletes(s: State, doc: Id, it: Item, progress: nat, life: Life, row: bool, earlier: seq<Deletion>,
                next: nat, applied: bool) returns (t: State)
    requires Reachable(s) && Working(s, doc, it, progress, life, row, earlier + [Request(it, next)]) && next <= 2
    ensures Reachable(t)
    ensures Working(t, doc, it, progress, life, row && !(next == 2 && applied), earlier + [Request(it, next + 1)])
    ensures t.graph == if next == 1 && applied then DeleteDocument(s.graph, it.chunk.tenant, doc) else s.graph
    ensures next != 0 || !applied ==> t.vectors == s.vectors
    ensures s.vectors in {map[], map[it.chunk.id := PointOf(it.chunk)]} && next == 0 && applied ==> t.vectors == map[]
  {
    Then(s, ContinueDelete(|earlier|, applied));
    t := Apply(s, ContinueDelete(|earlier|, applied));
    assert t.deletions == earlier + [Request(it, next + 1)];
  }

  // ---------------------------------------------------------------- the runs

  /**
   * A task still at work when all calls of a request have succeeded puts the document's points and chunk nodes
   * back, and no row is left to delete them by.
   */
  lemma LiveTaskBringsBack(doc: Id, it: Item) returns (s: State)
    requires it.chunk.document == doc
    ensures Reachable(s) && doc !in s.status
    ensures VectorIds(s, doc) == GraphIds(s, doc) == {it.chunk.id}
  {
    s := Cut(doc, it);
    s := Asks(s, doc, it, 2, Live, []);
    s := Deletes(s, doc, it, 2, Live, true, [], 0, true);
    s := Deletes(s, doc, it, 2, Live, true, [], 1, true);
    s := Deletes(s, doc, it, 2, Live, true, [], 2, true);
    s := WritesPoints(s, doc, it, false, [Request(it, 3)]);
    s := WritesDoc(s, doc, it, false, [Request(it, 3)]);
    s := WritesChunk(s, doc, it, false, [Request(it, 3)]);
    StoredIds(s, doc, it);
  }

  /** A first request whose graph call falls between the document and chunk statements, and whose row call fails. */
  lemma CutInHalfway(doc: Id, it: Item) returns (s: State)
    requires it.chunk.document == doc
    ensures Reachable(s) && Working(s, doc, it, 4, Live, true, [Request(it, 3)]) && s.vectors == map[]
    ensures doc !in s.graph.docs && s.graph.chunks == map[] && s.graph.partOf == {}
  {
    s := Cut(doc, it);
    s := WritesPoints(s, doc, it, true, []);
    s := WritesDoc(s, doc, it, true, []);
    s := Asks(s, doc, it, 4, Live, []);
    s := Deletes(s, doc, it, 4, Live, true, [], 0, true);
    s := Deletes(s, doc, it, 4, Live, true, [], 1, true);
    s := Deletes(s, doc, it, 4, Live, true, [], 2, false);
  }

  /**
   * Nodes out of reach. After that, the chunk node is written without its PART_OF edge and the task completes.
   * A second request finds the task over, all its calls succeed, the row goes, and the node stays.
   */
  lemma LeftoverStays(doc: Id, it: Item) returns (asked: State, s: State)
    requires it.chunk.document == doc
    ensures Reachable(asked) && Working(asked, doc, it, 8, Ended, true, [Request(it, 3), Request(it, 0)])
    ensures !Linked(asked, doc)
    ensures Reachable(s) && Working(s, doc, it, 8, Ended, false, [Request(it, 3), Request(it, 3)])
    ensures VectorIds(s, doc) == {} && GraphIds(s, doc) == {} && it.chunk.id in s.graph.chunks
  {
    var done := [Request(it, 3)];
    asked := CutInHalfway(doc, it);
    asked := WritesChunk(asked, doc, it, true, done);
    asked := Completes(asked, doc, it, true, done);
    asked := Asks(asked, doc, it, 8, Ended, done);
    NodeUnlinked(asked, doc, it);
    assert forall next :: done + [Request(it, next)] == [Request(it, 3), Request(it, next)];
    s := Deletes(asked, doc, it, 8, Ended, true, done, 0, true);
    s := Deletes(s, doc, it, 8, Ended, true, done, 1, true);
    s := Deletes(s, doc, it, 8, Ended, true, done, 2, true);
  }

  lemma NodeUnlinked(s: State, doc: Id, it: Item)
    requires Reachable(s) && doc in s.tasks && s.tasks[doc].items == [it]
    requires it.chunk.id in s.graph.chunks && s.graph.partOf == {}
    ensures !Linked(s, doc)
  {
    var steps :| Run(INITIAL, steps) && Exec(INITIAL, steps) == s;
    RunKeepsFull(INITIAL, steps);
    assert OwnsIds(s.tasks[doc], doc, s.reg);
    assert [it][0].chunk.id in ChunkIds(s.tasks[doc].items);
    assert it.chunk.id in ChunkNodes(s, doc);
  }

  /** Failures are swallowed: with both store calls failing, the row goes and the stores keep everything. */
  lemma FailedCallsKeepStores(s: State, i: nat)
    requires i < |s.deletions| && s.deletions[i].next == 0
    ensures var steps := [ContinueDelete(i, false), ContinueDelete(i, false), ContinueDelete(i, true)];
            && Run(s, steps) && s.deletions[i].document !in Exec(s, steps).status
            && Exec(s, steps).vectors == s.vectors && Exec(s, steps).graph == s.graph
  {
    var fail, work := ContinueDelete(i, false), ContinueDelete(i, true);
    var s1 := Apply(s, fail);
    var s2 := Apply(s1, fail);
    RunCons(s2, work, []);
    RunCons(s1, fail, [work]);
    RunCons(s, fail, [fail, work]);
    assert [fail] + [fail, work] == [fail, fail, work] && [fail] + [work] == [fail, work] && [work] + [] == [work];
  }

  lemma CompletedDocument(doc: Id, it: Item) returns (s: State)
    requires it.chunk.document == doc
    ensures Reachable(s) && Working(s, doc, it, 8, Ended, true, []) && Stored(s, doc, it)
  {
    s := Cut(doc, it);
    s := WritesPoints(s, doc, it, true, []);
    s := WritesDoc(s, doc, it, true, []);
    s := WritesChunk(s, doc, it, true, []);
    s := Completes(s, doc, it, true, []);
  }

  ghost predicate Stored(s: State, doc: Id, it: Item) {
    && s.vectors == map[it.chunk.id := PointOf(it.chunk)]
    && s.graph.chunks.Keys == {it.chunk.id} && s.graph.partOf == {(it.chunk.id, doc)}
  }

  lemma StoredIds(s: State, doc: Id, it: Item)
    requires Stored(s, doc, it) && it.chunk.document == doc
    ensures VectorIds(s, doc) == GraphIds(s, doc) == {it.chunk.id}
  {
  }

  /** It happens to a completed document: its row is gone, and both stores still have all of it. */
  lemma RowGoesStoresStay(doc: Id, it: Item) returns (s: State)
    requires it.chunk.document == doc
    ensures Reachable(s) && doc !in s.status && s.deletions == [Request(it, 3)]
    ensures VectorIds(s, doc) == GraphIds(s, doc) == {it.chunk.id}
  {
    s := CompletedDocument(doc, it);
    s := Asks(s, doc, it, 8, Ended, []);
    s := Deletes(s, doc, it, 8, Ended, true, [], 0, false);
    s := Deletes(s, doc, it, 8, Ended, true, [], 1, false);
    s := Deletes(s, doc, it, 8, Ended, true, [], 2, true);
    StoredIds(s, doc, it);
  }
}
