/**
 * Ingestion and deletion as a protocol over the vector store, the graph and the document rows
 * (app/ingest/pipeline.py, app/workers/tasks.py, app/api/documents.py).
 *
 * Tasks, delete requests and cleanups interleave at the level of single store calls. A call can
 * fail, with or without having taken effect, and a worker can die at any point.
 */
module Ingest {
  import opened Graph
  import opened GraphInv
  import opened GraphSearch
  import opened UpsertProofs

  datatype Status = Pending | Running | Completed | Failed

  /** Payload of a point in the vector store. */
  datatype Point = Point(tenant: Tenant, document: Id, page: int, text: string)

  datatype Life = Live | Failing | Ended

  /**
   * `progress`: 0 queued, 1 running, 2 chunked, 3 vectors written, then the next graph statement
   * (3 documents, 4 chunks, 5 entities, 6 mentions, 7 relations), 8 all stores written.
   */
  datatype Task = Task(tenant: Tenant, filename: string, items: seq<Item>, withGraph: bool, progress: nat, life: Life)

  /** A delete request and its next call: 0 vectors, 1 graph, 2 row. */
  datatype Deletion = Deletion(tenant: Tenant, document: Id, next: nat)

  datatype State = State(
    vectors: map<Id, Point>,
    graph: Graph,
    status: map<Id, Status>,
    tasks: map<Id, Task>,
    deletions: seq<Deletion>,
    reg: Registry)

  const INITIAL := State(map[], EMPTY, map[], map[], [], Registry(map[], map[]))

  datatype Step =
    | Upload(doc: Id, tenant: Tenant, filename: string)
    | SetRunning(doc: Id, ok: bool, applied: bool)
    | Chunked(doc: Id, items: seq<Item>, withGraph: bool)
    | WriteVectors(doc: Id, ok: bool, written: set<Id>)
    | RunStatement(doc: Id, ok: bool, applied: bool)
    | SetCompleted(doc: Id, ok: bool, applied: bool)
    | SetFailed(doc: Id, applied: bool)
    | Abort(doc: Id)
    | Die(doc: Id)
    | RequestDelete(tenant: Tenant, doc: Id)
    | ContinueDelete(i: nat, applied: bool)
    | CleanUp(victims: set<EntityKey>)

  // ---------------------------------------------------------------- what a step needs and does

  predicate At(s: State, doc: Id, progress: nat) {
    doc in s.tasks && s.tasks[doc].life == Live && s.tasks[doc].progress == progress
  }

  /** The chunks of one document under ids nobody has used. */
  predicate Minted(items: seq<Item>, doc: Id, t: Task, reg: Registry) {
    && (forall k :: 0 <= k < |items| ==> Belongs(items[k], doc, t) && items[k].chunk.id !in reg.chunkHome)
    && (forall j, k :: 0 <= j < k < |items| ==> items[j].chunk.id != items[k].chunk.id)
  }

  predicate Belongs(it: Item, doc: Id, t: Task) {
    it.chunk.document == doc && it.chunk.tenant == t.tenant && it.chunk.filename == t.filename
  }

  predicate Enabled(s: State, step: Step) {
    match step
    case Upload(doc, _, _) => doc !in s.reg.docTenant && doc !in s.tasks && doc !in s.status
    case SetRunning(doc, ok, applied) => At(s, doc, 0) && (ok ==> applied)
    case Chunked(doc, items, _) => At(s, doc, 1) && Minted(items, doc, s.tasks[doc], s.reg)
    case WriteVectors(doc, ok, written) =>
      At(s, doc, 2) && written <= ChunkIds(s.tasks[doc].items) && (ok ==> written == ChunkIds(s.tasks[doc].items))
    case RunStatement(doc, ok, applied) =>
      doc in s.tasks && s.tasks[doc].life == Live && 3 <= s.tasks[doc].progress <= 7 && (ok ==> applied)
    case SetCompleted(doc, ok, applied) => At(s, doc, 8) && (ok ==> applied)
    case SetFailed(doc, _) => doc in s.tasks && s.tasks[doc].life == Failing
    case Abort(doc) => doc in s.tasks && s.tasks[doc].life == Live
    case Die(doc) => doc in s.tasks
    case RequestDelete(tenant, doc) => doc in s.status && doc in s.tasks && s.tasks[doc].tenant == tenant
    case ContinueDelete(i, _) => i < |s.deletions| && s.deletions[i].next <= 2
    case CleanUp(victims) => AllOrphans(s.graph, victims)
  }

  function PointOf(c: GraphChunk): Point { Point(c.tenant, c.document, c.page, c.text) }

  /** The points of a batch of chunks. */
  function Points(items: seq<Item>): map<Id, Point> {
    if items == [] then map[]
    else var c := items[|items| - 1].chunk; Points(items[..|items| - 1])[c.id := PointOf(c)]
  }

  function Homes(items: seq<Item>, doc: Id): map<Id, Id> {
    map c | c in ChunkIds(items) :: doc
  }

  /** The graph statement a task runs next. */
  function Statement(g: Graph, t: Task): Graph
    requires 3 <= t.progress <= 7
  {
    match t.progress
    case 3 => if t.items == [] then g else MergeDocs(g, [ToDocRow(t.items[0].chunk)])
    case 4 => MergeChunks(g, ChunkRows(t.items))
    case 5 => MergeEntities(g, EntityRows(t.items))
    case 6 => MergeMentions(g, MentionRows(t.items))
    case 7 => MergeRelations(g, RelationRows(t.items))
  }

  function NextProgress(t: Task): nat
    requires 3 <= t.progress <= 7
  {
    match t.progress
    case 4 => if t.withGraph && EntityRows(t.items) != map[] then 5 else 8
    case 6 => if RelationRows(t.items) != [] then 7 else 8
    case p => p + 1
  }

  /** UPDATE ... WHERE id = doc: does nothing once the row is gone. */
  function Marked(status: map<Id, Status>, doc: Id, value: Status): map<Id, Status> {
    if doc in status then status[doc := value] else status
  }

  function Outcome(t: Task, ok: bool, progress: nat): Task {
    if ok then t.(progress := progress) else t.(life := Failing)
  }

  function Apply(s: State, step: Step): State
    requires Enabled(s, step)
  {
    match step
    case Upload(doc, tenant, filename) =>
      s.(status := s.status[doc := Pending],
         tasks := s.tasks[doc := Task(tenant, filename, [], false, 0, Live)],
         reg := s.reg.(docTenant := s.reg.docTenant[doc := tenant]))
    case SetRunning(doc, ok, applied) =>
      s.(status := if applied then Marked(s.status, doc, Running) else s.status,
         tasks := s.tasks[doc := Outcome(s.tasks[doc], ok, 1)])
    case Chunked(doc, items, withGraph) =>
      var cut := s.tasks[doc].(items := items, withGraph := withGraph, progress := if items == [] then 8 else 2);
      s.(tasks := s.tasks[doc := cut],
         reg := s.reg.(chunkHome := s.reg.chunkHome + Homes(items, doc)))
    case WriteVectors(doc, ok, written) =>
      var points := Points(s.tasks[doc].items);
      s.(vectors := s.vectors + (map c | c in points && c in written :: points[c]),
         tasks := s.tasks[doc := Outcome(s.tasks[doc], ok, 3)])
    case RunStatement(doc, ok, applied) =>
      s.(graph := if applied then Statement(s.graph, s.tasks[doc]) else s.graph,
         tasks := s.tasks[doc := Outcome(s.tasks[doc], ok, NextProgress(s.tasks[doc]))])
    case SetCompleted(doc, ok, applied) =>
      s.(status := if applied then Marked(s.status, doc, Completed) else s.status,
         tasks := s.tasks[doc := s.tasks[doc].(life := if ok then Ended else Failing)])
    case SetFailed(doc, applied) =>
      s.(status := if applied then Marked(s.status, doc, Failed) else s.status,
         tasks := s.tasks[doc := s.tasks[doc].(life := Ended)])
    case Abort(doc) => s.(tasks := s.tasks[doc := s.tasks[doc].(life := Failing)])
    case Die(doc) => s.(tasks := s.tasks[doc := s.tasks[doc].(life := Ended)])
    case RequestDelete(tenant, doc) => s.(deletions := s.deletions + [Deletion(tenant, doc, 0)])
    case ContinueDelete(i, applied) =>
      var d := s.deletions[i];
      var t := s.(deletions := s.deletions[i := d.(next := d.next + 1)]);
      if !applied then t
      else if d.next == 0 then t.(vectors := map c | c in s.vectors && !Owned(s.vectors[c], d) :: s.vectors[c])
      else if d.next == 1 then t.(graph := DeleteDocument(s.graph, d.tenant, d.document))
      else t.(status := s.status - {d.document})
    case CleanUp(victims) => s.(graph := DeleteEntities(s.graph, victims))
  }

  predicate Owned(p: Point, d: Deletion) { p.tenant == d.tenant && p.document == d.document }

  predicate Run(s: State, steps: seq<Step>)
    decreases |steps|
  {
    steps == [] || (Enabled(s, steps[0]) && Run(Apply(s, steps[0]), steps[1..]))
  }

  function Exec(s: State, steps: seq<Step>): State
    requires Run(s, steps)
    decreases |steps|
  {
    if steps == [] then s else Exec(Apply(s, steps[0]), steps[1..])
  }
}
