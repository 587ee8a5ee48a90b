# Verified model of the RAG service

Dafny models of the parts of the service that carry state, concurrency, list algorithms or arithmetic,
and proofs of what they guarantee. `dafny verify dfyconfig.toml` checks everything.

| file | models |
|---|---|
| `Text.dfy` | the Python string operations used: `split`, `join`, `strip`, substring |
| `Numbers.dfy`, `Sets.dfy`, `Sequences.dfy`, `Options.dfy` | small shared definitions and lemmas |
| `Chunker.dfy`, `Lengths.dfy`, `Spans.dfy`, `PartsInPage.dfy`, `Cores.dfy`, `Packing.dfy`, `Fullness.dfy`, `Overlap.dfy`, `Coverage.dfy`, `Pages.dfy`, `LongChunks.dfy` | the recursive chunker: its loops, its length bound, what every piece is made of and how full it is, when characters are lost |
| `Session.dfy`, `ExactlyOnce.dfy`, `StoredSummary.dfy` | conversation memory in Redis, one call at a time and as overlapping calls; what is summarised, and what the stored summary is |
| `Extract.dfy` | what the extractor keeps of a decoded model reply |
| `Graph.dfy`, `UpsertProofs.dfy`, `GraphInv.dfy` | the knowledge graph, its statements, undisturbed upserts, the invariant every statement keeps |
| `GraphSearch.dfy`, `OneHop.dfy`, `Cleanup.dfy` | local search: what it finds, and how deletion and orphan cleanup bear on it |
| `Ingest.dfy`, `IngestProofs.dfy`, `FullIngest.dfy`, `MentionRuns.dfy`, `RelationRuns.dfy`, `Outcomes.dfy` | ingestion, deletion and cleanup interleaved over both stores, with failures: what an undisturbed ingestion writes, which mentions and relations a document ends up with, what its row says |
| `DeletionProofs.dfy`, `DeletionLinks.dfy`, `DeletionRuns.dfy` | exactly when a deletion is final, and runs in which it is not |
| `FanOut.dfy`, `ExtractAll.dfy`, `Jobs.dfy` | the semaphore-bounded fan-out and whether a document gets its graph, the job event stream |
| `Retrieval.dfy` | pooling, reranking, assembly |
| `Tokenizer.dfy`, `Lexicographic.dfy`, `Seeding.dfy` | question tokens, and token-boundary against substring seeding |
| `Metrics.dfy` | average precision, cosine, answer relevancy |

Loops of the program are methods with invariants, proved against functions; properties are lemmas about those
functions. Redis, Neo4j and the ingestion workers are state machines: a step is one atomic call, a run is any
sequence of enabled steps, and results about runs hold for every interleaving. In `Graph.dfy` a Cypher statement
is one atomic step with the documented meaning of MERGE, MATCH and DETACH DELETE; `LIMIT` picks any rows.

Where the code and its own documentation disagree, the model follows the code:

- `app/evaluate/metrics.py:11` promises scores in [0, 1]; an average of cosines can be -1
  (`AnswerRelevancyCanBeNegative`), and stays in [0, 1] under the condition of `AnswerRelevancyDocumentedIff`.
- `app/retrieve/tokenizer.py:31-37` says particles must be listed longest first. The search tries the alternatives
  in their order, but starts from the left of the word, and at one start only the whole rest of the word can match:
  the order is irrelevant (`OrderOfParticlesIrrelevant`) and the longest particle goes (`StripOnceLongest`).
- `app/ingest/graph_indexer.py:10-12` leaves entities alone because other tenants' chunks may refer to them. None
  ever does (`GraphAlwaysSound`): entities are keyed by tenant and mentions stay inside one.
- `app/generate/session.py:13-16` describes folding as if calls never overlapped. Overlapping calls can drop
  messages unseen and summarise others twice (`OverlappingRollOversLose`); `ExactlyOnceIff` says exactly when not.
- `app/workers/cleanup.py:3-9` speaks of orphans left behind by deletions. The entities of a running upsert are
  orphans too, and a cleanup at that moment costs their mentions and relations (`CleanupMidUpsertCosts`).
- `app/api/documents.py:87` keeps the row when the stores cannot be cleared. Failures are swallowed, so the row goes
  anyway (`FailedCallsKeepStores`, `RowGoesStoresStay`). Even with every call succeeding, a task still at work writes
  the document back (`LiveTaskBringsBack`), and a graph call that falls between a task's document and chunk statements
  leads to a chunk node no later call can reach (`LeftoverStays`). `DeletionIsFinalIff` says exactly when nothing is
  left for good.
- `app/ingest/pipeline.py:42-45` says extraction never raises on flaky replies. A field that cannot be looped over,
  such as `{"entities": 5}`, raises (`ExtractionRaisesIff`), and one such reply costs the whole document its graph
  (`GraphIffNoReplyRaises`).

## Model

| member | source | states |
|---|---|---|
| Text.Split | app/ingest/chunker.py:23 | splitting never yields an empty list, and joining the parts with the separator restores the text |
| Text.SplitCutsLeftmost | app/ingest/chunker.py:23 | the first cut is at the leftmost occurrence and the remainder is split in the same way; without an occurrence nothing is cut |
| Text.StripCut | app/ingest/chunker.py:63 | stripping removes white space only, and all there is at the ends |
| Chunker.SlidingWindows | app/ingest/chunker.py:20-21 | the comprehension over `range` yields the windows of the specification |
| Lengths.WindowIs | app/ingest/chunker.py:20-21 | window j starts j steps on and is `size` long or ends with the text, and there is one for every such start inside the text |
| Chunker.StitchOverlap | app/ingest/chunker.py:41-47 | every piece but the first is the tail of its pre-stitch predecessor, the separator, and itself |
| Chunker.RecursiveSplit | app/ingest/chunker.py:16-48 | the recursive packing loop refines the specification `SplitText`, for every size, overlap (negative too) and separator list; a page that fits is one piece |
| Lengths.LengthBound | app/ingest/chunker.py:16-48 | true length bound: `size`, and for every separator before the first empty one as much again as stitching can add (the separator and the overlap, but no more than the piece before has) |
| Lengths.BoundAttained | app/ingest/chunker.py:16-48 | the bound is attained at every overlap: in a long unbroken run, every full piece with enough predecessors has exactly that length |
| Cores.SplitCores | app/ingest/chunker.py:16-48 | every piece ends with a core, a stretch of the page of at most `size` characters; cores start strictly later one after the other, and every character outside all cores lies in an occurrence of a separator; without overlap the pieces are the cores and do not intersect |
| Fullness.PiecesAreFull | app/ingest/chunker.py:26-39 | the loop packs: where no stretch between two occurrences of the first separator is longer than `size`, any two neighbouring cores span more than `size` characters |
| Fullness.FullCores | app/ingest/chunker.py:26-39 | for every page: two neighbouring cores span more than `size` characters, unless both are windows, or an oversized stretch between separators holds one but not the other, or it holds both and the same excuse applies inside it at the next separator |
| Overlap.StitchOpens | app/ingest/chunker.py:41-47 | a later piece opens with the last min(overlap, length) characters of the pre-stitch piece before it |
| Overlap.StitchShares | app/ingest/chunker.py:41-47 | and these are also the last characters of the stitched piece before it |
| Overlap.OverlapCarried | app/ingest/chunker.py:16-48 | the same for the pieces of a page: neighbours share at least min(overlap, core length) and at most `overlap` characters |
| Coverage.CoveredCount | app/ingest/chunker.py:16-48 | without overlap the pieces, wherever they stand, hold exactly as many characters of the page as their total length |
| Coverage.NegativeOverlapLosesIff | app/ingest/chunker.py:16-48 | for every page, a negative overlap loses a character that a zero overlap keeps, wherever the pieces stand, if and only if splitting comes down to the windows on something longer than `size`; otherwise the pieces are those of a zero overlap |
| Coverage.UnbrokenRunKeptIff | app/ingest/chunker.py:18-21 | every character of a long unbroken run lies in a core if and only if the overlap is not negative |
| Pages.ChunkPages | app/ingest/chunker.py:51-65 | the loop over pages refines the per-page specification; blank pages contribute nothing |
| Pages.ChunkOrigin | app/ingest/chunker.py:57-64 | each chunk is one piece of one page that is not blank, without the white space at its ends, in the order of pages and pieces |
| Pages.ChunkCount | app/ingest/chunker.py:57-64 | and there is one for every such piece |
| Pages.Numbering | app/ingest/chunker.py:57-64 | indexes run 0, 1, 2, ... over the whole document and every chunk names one of its pages |
| Pages.ChunkLength | app/ingest/chunker.py:51-65 | every stripped chunk of every page is within the length bound |
| Pages.DefaultBound | app/ingest/chunker.py:6 | the bound for the shipped separators: never above size + 4 * overlap + 6, equal to it for overlaps from 1 to `size`, `size` at overlap 0, 16 * size + 20 once the overlap takes in whole pieces |
| Pages.DefaultChunkLength | app/ingest/chunker.py:6 | with the shipped separators no chunk exceeds size + 4 * overlap + 6 |
| Pages.ExtractorSeesWholeChunk | app/ingest/graph_extract.py:27-123 | while the bound is within 4000, the extractor's cut never shortens a chunk |
| Pages.ConfiguredBound | app/config.py:75-76 | at the configured 1000/200 the bound is 1806 |
| LongChunks.LongestChunk | app/ingest/chunker.py:51-65 | a page that is one long word has a chunk of exactly the bound's length, after the final strip |
| LongChunks.ExtractorSeesAllIff | app/ingest/graph_extract.py:27-123 | the extractor reads every chunk of every document whole if and only if the bound is within its cut, at overlap 0, up to `size`, and wherever the overlap takes in whole pieces |
| LongChunks.DefaultSeesAllIff | app/ingest/graph_extract.py:27-123 | the same for the shipped separators, in numbers |
| Pages.NoContentLost | app/ingest/chunker.py:51-65 | every character that is neither white space nor in a separator is quoted, with its neighbourhood, by a chunk of its own page, also after the final strip |
| Pages.DefaultSplitLosesNothing | app/ingest/chunker.py:51-65 | with the shipped separators only white space and the dot of a ". " break can go missing |
| Session.Memory.AppendTurn | app/generate/session.py:74-109 | an undisturbed call takes the store to `AfterTurn` of the store it found |
| Session.Memory.Load | app/generate/session.py:55-71 | returns the entries that decode, in order, from the first read, and the summary of the second, whatever other callers did in between |
| Session.DecodedAll | app/generate/session.py:62-68 | entries that decode to themselves are all returned |
| Session.DecodedParts | app/generate/session.py:62-68 | an entry that does not decode takes nothing else with it |
| Session.Memory.Reset | app/generate/session.py:112-114 | empties both keys |
| Session.AfterTurnKeepsNewest | app/generate/session.py:97-109 | the newest messages stay, as many as the budget allows, the question and the answer being the last two; the summary becomes a non-empty reply when the list overflowed, and otherwise stays |
| Session.CallIsARun | app/generate/session.py:74-109 | the steps of the protocol, taken without interleaving, amount to the undisturbed call |
| Session.WindowAlwaysBounded | app/generate/session.py:87-109 | every interleaving, expiry and reset anywhere: the live list is an even, alternating suffix of what was pushed, over budget by at most one pair per call in flight, and whenever it is over budget someone has yet to measure it or a pending trim cuts at least the excess |
| Session.QuietWindowInBudget | app/generate/session.py:97-109 | once every call has returned the list holds at most 2 * session_max_turns messages |
| Session.NoMessageLost | app/generate/session.py:97-109 | for every turn limit: while no range is read inside another call's read-to-trim section, no trim is longer than its own range and the list survives, the history is the ranges handed to the summariser, in order and each once, followed by the live list; replies are arbitrary, failures included |
| Session.OneAtATimeIsOrderly | app/generate/session.py:97-109 | calls whose roll-overs do not overlap meet that condition, for turn limits of at least 0 |
| Session.OverlappingRollOversLose | app/generate/session.py:97-109 | a concrete interleaving of three calls that hands one range out twice and drops a pair nobody summarised |
| ExactlyOnce.ExactlyOnceIff | app/generate/session.py:97-109 | for every interleaving, every turn limit, expiry and reset included: the messages that left the list were read for the summariser each exactly once if and only if every range was read when all earlier reads had been trimmed and no step removed more than had been read |
| ExactlyOnce.OrderlyIsCareful | app/generate/session.py:97-109 | keeping read-to-trim sections apart, with no trim longer than its own range and no expiry, meets that condition |
| ExactlyOnce.HandedIsRead | app/generate/session.py:101-103 | in every run, what the summariser was given is message for message what was read |
| StoredSummary.HandedIsFolded | app/generate/session.py:101-103 | in every run, the ranges of the summariser's calls, in their order, are what was handed over |
| StoredSummary.SummaryIsFold | app/generate/session.py:101-109 | for orderly runs in which the summary key survives, the stored summary is the fold of exactly the ranges that left the list, in order, a failed or empty reply leaving it as it was |
| StoredSummary.SummarySinceExpiry | app/generate/session.py:101-109 | for orderly runs with expiry: the fold of the ranges since the last expiry, starting from nothing, or from what a call had already read or was about to store |
| StoredSummary.ResumePoint | app/generate/session.py:101-109 | at every moment of an orderly run there is such a starting point |
| Extract.Parse | app/ingest/graph_extract.py:79-117 | the loops refine the specification of the kept entities and relations; undecodable replies give nothing, fields that cannot be looped over raise |
| Extract.ExtractEntitiesAndRelations | app/ingest/graph_extract.py:120-133 | blank texts and failed calls give nothing, otherwise the model sees the cut text and its reply is parsed |
| Extract.ExtractionRaisesIff | app/ingest/graph_extract.py:120-133 | extraction raises if and only if the model answered a text that is not blank with a field that cannot be looped over; otherwise the extraction is well formed |
| Extract.ParsedWellFormed | app/ingest/graph_extract.py:89-117 | kept names are non-empty and distinct, types valid, relation ends among the entities, kinds non-empty, and no relation with both ends named is dropped |
| Extract.FirstOfNameKept | app/ingest/graph_extract.py:89-101 | every usable name is kept, with the type and description of its first occurrence |
| Extract.KeptIsFirstOfName | app/ingest/graph_extract.py:89-101 | every kept entity is the first occurrence of its name |
| Extract.ParsedElements | app/ingest/graph_extract.py:89-117 | field by field: the kept entities are exactly the first usable ones of their names, in order, names and types stripped, the type upper-cased if valid and OTHER if not; the kept relations are exactly those whose stripped ends are kept names, in order, from source to target, of their stripped kind or "related" |
| Graph.BuildRows | app/ingest/graph_indexer.py:95-133 | the row-building loops refine the specification of entity, mention and relation rows |
| Graph.ListDocRows | app/ingest/graph_indexer.py:136-138 | listing a set of rows gives exactly the rows of the batch, in some order |
| Graph.GraphStore.UpsertChunksWithGraph | app/ingest/graph_indexer.py:82-206 | the store becomes the specified upsert of the old one, for some listing of the document rows |
| Graph.GraphStore.UpsertChunksSkeleton | app/ingest/graph_indexer.py:44-78 | documents and chunks only, for some listing of the document rows |
| Graph.GraphStore.DeleteDocumentGraph | app/ingest/graph_indexer.py:217-229 | without such a document of the tenant nothing changes; otherwise the document and the chunks PART_OF it are gone, no edge touches them, and every other node and edge, entities and relations included, is as it was |
| Graph.OnlyOneDeletion | app/ingest/graph_indexer.py:217-229 | this settles the graph: no two graphs meet that description |
| UpsertProofs.UpsertAddsEverything | app/ingest/graph_indexer.py:95-206 | an undisturbed upsert adds every row of the batch; none is lost at its MATCH, early returns included |
| UpsertProofs.SkeletonAdds | app/ingest/graph_indexer.py:44-78 | without extraction: documents, chunks and PART_OF edges, and nothing else |
| UpsertProofs.UpsertStoresFields | app/ingest/graph_indexer.py:136-168 | stored with tenant and file name, and with tenant, page and the first 500 characters of the text |
| UpsertProofs.NewRelationFrom | app/ingest/graph_indexer.py:119-206 | every relation an upsert adds is one of the batch, from its source to its target, of its kind and with its description |
| UpsertProofs.BatchIsFold | app/ingest/graph_indexer.py:82-206 | a batch equals its chunks upserted one at a time in order |
| UpsertProofs.FirstDescriptionWins | app/ingest/graph_indexer.py:103-183 | a stored description stays, otherwise the first of the batch is stored; relations likewise keep theirs |
| UpsertProofs.UpsertTwiceChangesNothing | app/ingest/graph_indexer.py:82-206 | running the same batch again changes nothing |
| UpsertProofs.RowOrderIrrelevant | app/ingest/graph_indexer.py:136-138 | the arbitrary order of the listed row set does not matter when a document has one name and tenant |
| UpsertProofs.ParsedExtractionArrives | app/ingest/graph_indexer.py:99-206 | every entity and relation of a parsed extraction is an edge of the graph afterwards, between the right nodes |
| GraphInv.MergeChunksKeeps | app/ingest/graph_indexer.py:158-168 | the chunk statement keeps the invariant, whatever ran before it |
| GraphInv.MergeMentionsKeeps | app/ingest/graph_indexer.py:186-194 | the mention statement keeps mentions inside one tenant and attached |
| GraphInv.MergeRelationsKeeps | app/ingest/graph_indexer.py:196-206 | the relation statement keeps relations inside one tenant and attached |
| GraphInv.DeleteDocumentKeeps | app/ingest/graph_indexer.py:217-229 | deletion leaves no dangling edge |
| GraphInv.DeleteEntitiesKeeps | app/workers/cleanup.py:80-97 | cleanup leaves no dangling edge |
| OneHop.HitIff | app/retrieve/graph.py:44-94 | in a sound graph a chunk of a document of the tenant is found if and only if it mentions an entity of the tenant that is a seed or stands at either end of a relation whose other end is one, and its score is the number of those entities |
| OneHop.DirectionIrrelevant | app/retrieve/graph.py:49-78 | turning every relation of the graph round changes no row and no score |
| GraphSearch.DeleteRemovesOnlyItsHits | app/retrieve/graph.py:44-65 | after deleting a document, every question of every tenant finds the same rows with the same scores, less the document's |
| GraphSearch.RankingAfterDelete | app/retrieve/graph.py:54-63 | any ranking before the deletion, with the document's rows crossed out, is a ranking after it |
| GraphSearch.MatchedAfterCleanup | app/retrieve/graph.py:45-54 | after cleanup exactly the entities reachable only through deleted seeds stop counting |
| GraphSearch.CleanupOnlyLowersScores | app/workers/cleanup.py:80-97 | cleanup never raises a score |
| GraphSearch.CleanupInvisibleIff | app/workers/cleanup.py:80-97 | cleanup is invisible to a question if and only if no row counts an entity reached only through deleted seeds |
| GraphSearch.NoSeedDeletedInvisible | app/workers/cleanup.py:80-97 | in particular when no deleted entity is a seed |
| GraphSearch.CleanupCanBeVisible | app/retrieve/graph.py:45-54 | a concrete sound graph and question where deleting one orphan changes the answer |
| Cleanup.Pick | app/workers/cleanup.py:36-71 | a scan returns distinct orphans of the scope, as many as there are up to the limit |
| Cleanup.Run | app/workers/cleanup.py:108-157 | a dry run changes nothing; otherwise exactly the picked orphans of the graph at the delete go, whatever other writers did since the scan; both counts and the sample of at most 20 are right |
| Cleanup.OtherTenantsUntouched | app/workers/cleanup.py:36-105 | a cleanup of one tenant deletes unmentioned entities of that tenant only; entities and relations of other tenants are as they were |
| Cleanup.CleanupClearsScope | app/workers/cleanup.py:74-105 | with a limit that suffices, every entity left in the scope is mentioned |
| Cleanup.CleanupRemovesJustTheVictims | app/workers/cleanup.py:74-105 | no new orphan in any scope, no mention lost, entities before = entities after + deleted |
| Cleanup.OrphansGoneAfterCeiling | app/workers/cleanup.py:74-105 | n orphans are gone after k applies with limit L if and only if k >= ceil(n / L), whatever each apply picks |
| Cleanup.CleanupMidUpsertCosts | app/ingest/graph_indexer.py:177-206 | a cleanup between an upsert's entity statement and its mention and relation statements costs exactly the mentions of the entities it deletes and the relations they are an end of |
| IngestProofs.StatementKeeps | app/ingest/graph_indexer.py:139-206 | every statement of a task keeps the graph invariant, whatever ran since its previous one |
| IngestProofs.GraphAlwaysSound | app/ingest/graph_indexer.py:135-229 | every interleaving of uploads, ingestions, deletions and cleanups with failures: no dangling edge, no edge across tenants, at most one document per chunk, of the chunk's tenant |
| IngestProofs.CompletedMeansStoresAgree | app/ingest/pipeline.py:112-137 | in every such run a completed document nobody asked to delete has the same chunk ids in both stores, same tenant and page, and the graph text is the first 500 characters of the vector text |
| IngestProofs.StatusFollows | app/workers/tasks.py:41-60 | a document reads completed only after all its store calls returned |
| FullIngest.StatementsInARow | app/ingest/graph_indexer.py:44-206 | a task's statements with nothing in between amount to one whole upsert with extraction, and to the skeleton without |
| FullIngest.UndisturbedIngestion | app/ingest/pipeline.py:112-137 | from any state, an ingestion nothing comes in between of ends completed, with the points of its batch added to the vector store and that upsert, or skeleton, in the graph |
| Outcomes.RowTellsOutcome | app/workers/tasks.py:41-60 | in every run in which the worker lives and its last mark arrives, the row is pending or running while the task goes on, and completed or failed once it has ended |
| Outcomes.EndedRowStays | app/workers/tasks.py:41-60 | nothing changes the row of an ended task any more, but its deletion: after the death of its worker it says running for good |
| MentionRuns.CompletedMentions | app/ingest/graph_indexer.py:177-194 | in every run, a completed document nobody asked to delete has exactly the mentions of its batch, less those of the entities a cleanup deleted after its entity statement and no other task merged again before its mention statement |
| MentionRuns.NothingMissing | app/ingest/graph_indexer.py:177-194 | without a cleanup in that window, nothing is missing |
| RelationRuns.RelationsFound | app/ingest/graph_indexer.py:196-206 | the relation statement adds exactly the relations of the batch both ends of which are there, and keeps stored descriptions |
| RelationRuns.RelationsStay | app/ingest/graph_indexer.py:196-206 | in every run, once a document's relation statement has taken effect, every relation of its batch is in the graph, but for those an end of which was missing then or has been deleted by a cleanup since; deletion of documents takes none away |
| RelationRuns.CompletedHasStored | app/ingest/graph_indexer.py:196-206 | a completed document whose extraction found relations has run that statement |
| RelationRuns.CompletedRelations | app/ingest/graph_indexer.py:196-206 | so with no cleanup after its entity statement, a completed document has every relation of its batch |
| DeletionProofs.PointsStayGoneIff | app/api/documents.py:66-70 | points that are gone stay gone in every later run if and only if the document's task is past its vector write, or past writing at all |
| DeletionProofs.NodesStayGoneIff | app/api/documents.py:72-76 | document and chunk nodes that are gone stay gone if and only if the task is past its document and chunk statements, or past writing at all |
| DeletionProofs.GraphCallClearsIff | app/ingest/graph_indexer.py:217-229 | the graph call leaves neither the document nor any chunk node minted for it if and only if its chunk nodes are all PART_OF it |
| DeletionProofs.DeletionIsFinalIff | app/api/documents.py:48-94 | in every run: with the vector call finding the task past its vector write, neither store has anything of the document after the graph call and ever after, if and only if its chunk nodes were all PART_OF it and its task was past its document and chunk statements |
| DeletionLinks.LinkedUnlessCutIn | app/ingest/graph_indexer.py:139-168 | the chunk nodes of a document are all PART_OF it in every run in which no graph call on it takes effect between its task's document and chunk statements |
| DeletionLinks.CutInUnlinks | app/ingest/graph_indexer.py:139-168 | and where one does, the task's chunk statement leaves a node that is PART_OF nothing |
| DeletionRuns.LeftoverStays | app/api/documents.py:66-94 | a reachable run in which a second request finds the task over, all its calls succeed, the row goes, and a chunk node with its text stays |
| DeletionRuns.FailedCallsKeepStores | app/api/documents.py:66-94 | from any state: with both store calls failing and the row call succeeding, the row goes and both stores are as they were |
| DeletionRuns.RowGoesStoresStay | app/api/documents.py:66-94 | a reachable run in which this happens to a completed document |
| DeletionRuns.LiveTaskBringsBack | app/api/documents.py:66-94 | a reachable run in which all calls of a request succeed, the row is gone, and a task still at work puts the document's points and chunk nodes back |
| FanOut.NeverStuck | app/ingest/pipeline.py:46-52 | some coroutine can move exactly as long as a text is not done |
| FanOut.EverySchedule | app/ingest/pipeline.py:39-52 | every schedule: at most max(1, concurrency) in flight, exactly two steps a text until nothing is enabled, then result i is the outcome for text i, an exception included |
| FanOut.AllPermitsUsed | app/ingest/pipeline.py:39-52 | and the bound is reached: a schedule has as many in flight as permitted, or all texts |
| ExtractAll.GatherOutcome | app/ingest/pipeline.py:52 | every schedule, finished or not: an exception comes out only if some extraction raises, and results come out if and only if all have finished and none raised, in the order of the texts |
| ExtractAll.GraphIffNoReplyRaises | app/ingest/pipeline.py:89-104 | once the fan-out has ended, a document gets its graph if and only if extraction is switched on and no reply raises, and then extraction i is that of text i |
| Jobs.Stream | app/api/jobs.py:77-108 | the polling loop stops at the first missing row, terminal status or the cap, and sends the specified events |
| Jobs.StreamJob | app/api/jobs.py:62-114 | no stream opens for a job that is not there |
| Jobs.ReportedIsCollapse | app/api/jobs.py:82-90 | progress events are the observed payloads with adjacent repeats collapsed |
| Jobs.CollapseReportsChanges | app/api/jobs.py:84-90 | one report for the first row and one per change, the last being the last row seen |
| Jobs.StreamEndsOnce | app/api/jobs.py:77-108 | exactly one done event, at the end, after at most 600 re-reads and within 602 events |
| Jobs.StreamTells | app/api/jobs.py:77-108 | the stream goes on exactly until the job is completed or failed, its row is gone, or 600 re-reads are over, and the done event carries the status, progress and error of the row it ended at |
| Jobs.ReportedShows | app/api/jobs.py:82-90 | every progress event carries the status, progress and error of a row that was read, a missing progress as 0 |
| Retrieval.BuildCandidatePool | app/retrieve/orchestrator.py:60-80 | the pool is the deduplication of graph hits followed by vector hits |
| Retrieval.Merge | app/retrieve/orchestrator.py:83-101 | merging is pooling, projected to citations |
| Retrieval.DedupKeepsFirsts | app/retrieve/orchestrator.py:66-80 | exactly the first hit of every key is kept, in order, and no key is lost |
| Retrieval.SortIsStable | app/retrieve/reranker.py:108-109 | the descending sort is stable |
| Retrieval.StableOrderUnique | app/retrieve/reranker.py:108-109 | only one order is stable, so the ranking does not depend on how the sort works |
| Retrieval.Rerank | app/retrieve/reranker.py:74-112 | the code with its fallbacks refines the specification; too few or too many scores, a lone score or no model fall back to the input order |
| Retrieval.RerankedIsStableTop | app/retrieve/reranker.py:108-110 | with usable scores the result is the stable top, each hit carrying its new score |
| Retrieval.RerankedIsRanked | app/retrieve/reranker.py:74-112 | for every input: with at least two hits, a question that is not blank and one score per hit, the max(1, min(k, n)) first of every stable order; otherwise the head of the input |
| Retrieval.Finalize | app/retrieve/orchestrator.py:104-128 | assembly refines its specification under every setting |
| Retrieval.WithoutFusion | app/retrieve/orchestrator.py:123-128 | fusion off, the default: `raw` is the vector hits ranked, or untouched without a reranker, and the answer cites, by file name, page and text, the first hit of each chunk among the graph hits followed by `raw` |
| Retrieval.WithFusion | app/retrieve/orchestrator.py:115-122 | fusion on: the first hit of each chunk among graph and vector hits are ranked together, and the answer cites them in that order |
| Retrieval.RerankerCanReorder | app/retrieve/orchestrator.py:123-128 | under the default settings, of two vector hits the one the reranker prefers is answered |
| Retrieval.FusionIsStableTop | app/retrieve/orchestrator.py:115-122 | fusion: the unique stable top-k of the deduplicated pool, keys distinct, ties in pool order with graph hits first |
| Retrieval.NothingBetterOmitted | app/retrieve/reranker.py:108-110 | no omitted candidate ranks before a kept one |
| Retrieval.FusionFallsBackToPool | app/retrieve/orchestrator.py:115-122 | fusion, scores unusable for whatever reason: the head of the pool, untouched |
| Retrieval.GraphHitsStayOnTop | app/retrieve/orchestrator.py:123-128 | fusion off: the deduplicated graph hits are a prefix of the answer, whatever the scores |
| Retrieval.Retrieve | app/retrieve/orchestrator.py:155-200 | which intent, how many hits each search is asked for (twice as many for an analysis, oversampled before a reranker), and assembly of what they return; a vector error propagates, a graph error does not; at most 2 * effective_k chunks, effective_k with fusion |
| Tokenizer.PieceIsRun | app/retrieve/tokenizer.py:58-60 | every non-empty piece of the split is a maximal delimiter-free run |
| Tokenizer.RunIsPiece | app/retrieve/tokenizer.py:58-60 | and every maximal delimiter-free run is a piece |
| Tokenizer.StripOnceLongest | app/retrieve/tokenizer.py:38-44 | one strip removes the longest particle the word ends in |
| Tokenizer.TryAt | app/retrieve/tokenizer.py:38-44 | the alternatives are tried in their order at one start, and one is found exactly when some alternative matches there up to the end |
| Tokenizer.TryAtIffParticle | app/retrieve/tokenizer.py:38-44 | at one start the trial succeeds exactly when the rest of the word is a particle, and matches all of it |
| Tokenizer.OrderOfParticlesIrrelevant | app/retrieve/tokenizer.py:31-44 | the order in which the alternatives are tried does not matter |
| Tokenizer.AddForms | app/retrieve/tokenizer.py:61-70 | the stripping loop adds exactly the word and its forms |
| Tokenizer.QuestionTokens | app/retrieve/tokenizer.py:49-71 | the loops, the length filter and the sort give the specified tokens, in ascending order, each once |
| Lexicographic.Sorted | app/retrieve/tokenizer.py:71 | sorting a set lists its members in strictly ascending order of code points |
| Lexicographic.SortedUnique | app/retrieve/tokenizer.py:71 | there is only one such list |
| Tokenizer.TokenStemsFromRun | app/retrieve/tokenizer.py:49-71 | every token is a non-empty prefix of a run whose remainder is a concatenation of particles |
| Tokenizer.ShippedTokenStemsFromRun | app/retrieve/tokenizer.py:27-44 | the same for the shipped delimiters and particles |
| Tokenizer.RunIsToken | app/retrieve/tokenizer.py:58-71 | every run of enough characters is itself a token |
| Tokenizer.TokensAreStrippedRuns | app/retrieve/tokenizer.py:58-71 | the tokens are exactly what is long enough among the runs and what is left of them when the longest particle they end in is taken off again and again, as long as something is left |
| Tokenizer.TokensClosed | app/retrieve/tokenizer.py:61-70 | what is left of a token without its longest particle is a token too, if long enough |
| Tokenizer.StackedParticles | app/retrieve/tokenizer.py:63-70 | the source's own example: 회사에서부터 gives 회사에서 and 회사 |
| Seeding.TokenInsideStripped | app/retrieve/graph.py:104-115 | every token occurs in the stripped question |
| Seeding.FewerSeedsFewerHits | app/retrieve/graph.py:45-54 | fewer seeds give no new row and no higher score |
| Seeding.TokenSeedingNarrows | app/retrieve/graph.py:44-94 | where normalising amounts to lower-casing, token-boundary seeds, rows and scores are contained in the substring ones, for every graph and question |
| Seeding.ShippedSeedingNarrows | app/retrieve/graph.py:44-115 | the same for the shipped delimiters and particles |
| Seeding.TokenSeedIff | app/retrieve/graph.py:68-94 | token-boundary seeds are exactly the long enough names the question has as a run, stacked particles aside |
| Seeding.InsideAWord | app/retrieve/graph.py:68-78 | the source's own example: 원장 inside 부원장 is a seed of the substring search and none at token boundaries |
| Metrics.ContextPrecision | app/evaluate/metrics.py:198-207 | the loop computes average precision; no passages gives no score, no useful passage gives 0 |
| Metrics.AveragePrecisionRange | app/evaluate/metrics.py:198-207 | with a useful passage the score is in (0, 1], and 1 if and only if the useful ones come first |
| Metrics.SwapRaisesPrecision | app/evaluate/metrics.py:203-207 | moving a useful passage ahead of an adjacent useless one strictly raises the score |
| Metrics.OneUseful | app/evaluate/metrics.py:198-207 | a single useful passage scores the reciprocal of its rank |
| Metrics.OneMoreUseful | app/evaluate/metrics.py:203-207 | one more useful passage at the end adds its own precision to the sum |
| Metrics.UselessAtTheEnd | app/evaluate/metrics.py:203-207 | useless passages at the end cost nothing |
| Metrics.DotLoop | app/evaluate/metrics.py:35 | the zipped sum is the truncated dot product |
| Metrics.DotBound | app/evaluate/metrics.py:32-40 | Cauchy-Schwarz for the truncated product and the full norms, whatever the lengths |
| Metrics.CosineRange | app/evaluate/metrics.py:32-40 | the cosine is in [-1, 1], and not negative if and only if the dot product is not |
| Metrics.AnswerRelevancyRange | app/evaluate/metrics.py:160-167 | the average over generated questions is in [-1, 1] |
| Metrics.AnswerRelevancyIsProjection | app/evaluate/metrics.py:160-167 | the score times the number of generated questions is the length of their unit vectors' resultant along the question |
| Metrics.SameQuestionScoresOne | app/evaluate/metrics.py:160-167 | generated questions that repeat the question score 1 |
| Metrics.DotAdd | app/evaluate/metrics.py:35 | the truncated product is additive over zero-padded sums, whatever the lengths |
| Metrics.AnswerRelevancyDocumentedIff | app/evaluate/metrics.py:11-167 | the average is in the documented [0, 1] if and only if the question vector makes no obtuse angle with the resultant of the generated questions' unit vectors |
| Metrics.NoneObtuseKeepsDocumentedRange | app/evaluate/metrics.py:11-167 | in particular when no generated question has a negative dot product with the question |
| Metrics.AnswerRelevancyCanBeNegative | app/evaluate/metrics.py:160-167 | opposite embeddings score -1 |

## Left out

- NoMessageLost: is about orderly runs, because the code loses messages in others; `ExactlyOnceIff` covers all runs, exactly-once but not order.
- SummarySinceExpiry: is about orderly runs; overlapping roll-overs overwrite each other's summary.
- Session.Memory.Load: does not model refreshing the TTL, expiry being a step that may happen at any time.
- ExtractorSeesAllIff: for overlaps above `size` that end inside the piece before, the bound is sufficient but the other half is not stated: the tail can then start with a stitched separator, which the final strip takes off again.
- GraphIffNoReplyRaises: the model is a function of the text it is shown, so equal texts get equal replies.
- RelationsStay: says which relations are there, not that there are no others, because relations are shared between documents of a tenant and belong to none; one that a cleanup took and another document stated again still counts as lost.
- RowOrderIrrelevant: needs one name and tenant per document id, which ingestion guarantees; otherwise the last listed row decides.
- TokenSeedingNarrows: needs the normalised question to be the lower-cased one up to surrounding white space, and a delimiter set with all white space; the shipped one has it, so `ShippedSeedingNarrows` needs only the first; NFKC and casefold can differ from lower-casing.
- Stream: one observation function of the read number stands for the job row; wall time outside the sleeps is not counted, as in the code.
- Retrieve: takes the two searches, the intent classifier and the cross-encoder as arbitrary functions; that a search returns no more hits than asked for is a precondition.
- HTTP, SSE framing, Celery, authentication, rate limits and connection handling.
- OCR, embedding, language models and cross-encoder: arbitrary functions or replies, including failure.
- JSON decoding, fence stripping, NFKC, casefold and `upper`: the models start from decoded values or take them as parameters.
- Floating-point rounding and NaN scores: `Metrics.dfy` and scores are over exact reals, square roots given as non-negative numbers with the right square.
- Negative chunk sizes; a negative overlap is modelled.
- TTL deadlines: expiry is a step that may happen at any time. A Redis command that fails ends the call, which the model covers by never scheduling its remaining steps.
- Duplicate entity nodes from racing MERGEs, and a statement that fails half-way: a statement is atomic, applied or not, whatever the caller is told.
- A document is ingested by one task (`max_retries=0`); re-delivery of a task by the broker is not modelled.
- Job rows: several uploads write one row, so a terminal job status can change again. Only document status is modelled.
- Uploaded files on disk, row defaults and the LIMIT of graph search, Qdrant's fusion of dense and sparse results, evaluation prompts and answers.
