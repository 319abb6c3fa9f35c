# rag-wiki: a verified model of its core

rag-wiki turns documents into a knowledge graph, a wiki over that graph, and
context for retrieval. This project models the six parts of it whose
correctness does not depend on a provider, in Dafny, and proves what they
promise:

1. **Entity merge and resolution** (`GraphTables`, `GraphMerge`, `MergedTables`,
   `UnionFind`, `Resolution`, `ResolutionRuns`, `ResolvedRows`). One merge is a fixed list of SQL statements over five tables;
   every constraint of the schema is re-checked after every statement, as the
   database does. Over whole runs the merge log is a union-find forest and the
   tables are the image of everything ever inserted under its find function, and
   a successful resolution is a sequence of such a run's events.
2. **Graph traversal** (`Traversal`, `TraversalLimits`, `TraversalRanking`). The recursive query is
   an iterated work table, checked against shortest undirected distances that
   are defined without it. Then the caps per hop and in total.
3. **Chunking** (`Chunking`, `ChunkingProperties`, `ChunkGrouping`,
   `ParagraphChunks`). The packer
   as it is written, with loops, is a fold; nothing is lost, the overlap pass
   can be undone, and the number of chunks is minimal. The documented size
   bound is decided exactly, for every overlap.
4. **Jobs** (`JobProtocol`, `JobSafety`, `JobOutcomes`, `JobRequests`,
   `QueueRows`, `JobWorker`). A protocol of committed transactions (enqueue, claim, body,
   commit, crash, fail, release), its invariant over all runs, the fate of every
   request for synthesis, and the worker loop, which provably follows the
   protocol and empties the queue once the outside is quiet.
5. **Retrieval context** (`Budgets`, `WikiSections`, `WikiOrder`, `Deduplication`,
   `ChunkPairs`, `ContextAssembly`, `ShownChunks`, `AssembledFields`,
   `AssemblyLimits`, `ResultMerging`, `MergedResults`, `Comparison`). Greedy budgets with floor division, the wiki-page slot,
   de-duplication, the assembly and its bound of 3600 tokens, the merge of
   results, and when a comparison of several entities stays within its budget.
6. **Export and planner cache** (`Slugs`, `SlugWords`, `Export`,
   `ExportProperties`, `ExportedFiles`, `ExportCrashes`, `PlannerCache`,
   `PlannerDecisions`). A bundle of files kept in step with the
   page table over any number of runs, what any number of interrupted runs
   leave to be repaired, and a bounded cache.

`Sequences`, `StableSorting` and `Texts` hold the shared vocabulary (order
preserving filters, first-occurrence de-duplication, the stable sort, join,
split and strip).

Check everything with `dafny verify dfyconfig.toml`.

## Form

Code of the repository that changes state step by step is a class with
methods: the session of a merge, the resolver, the database behind the queue,
the storage of an export, the planner. Loops are loops with invariants. Each
such method is proved equal to a function or predicate of its inputs and the
old state, and the properties below are lemmas about those functions.

`MergedTables`, `ResolvedRows`, `TraversalRanking`, `ParagraphChunks`,
`QueueRows`, `WikiOrder`, `ShownChunks`, `AssembledFields`, `MergedResults`,
`SlugWords`, `ExportedFiles` and `PlannerDecisions` say what each operation
answers in terms of its inputs and outputs alone (rows, positions, literal
paths and constants), without the functions the methods are proved against.

## Assumptions

- Identifiers drawn by `uuid4` are distinct from all others.
- One worker runs, as deployed; a failure handler (rollback, refresh, fail or
  release, commit) is one step, and a claim is not contended.
- Content hashes are injective. A storage write or delete of one file is one
  step.
- Model answers, embeddings, searches, parser results, clocks and the order in
  which the database returns rows are arbitrary inputs.

## Where the code and its own words differ

The code is modelled; these are the places where a docstring says otherwise, or
where the code does less than its names suggest.

- `fail_job` (rag_wiki/jobs/__init__.py:168-169) says a job is retried while
  `attempts < max_retries`; the code retries while `attempts <= max_retries`,
  so a job runs up to `max_retries + 1` times. `JobSafety.RunsAreSafe` has the
  exact relation.
- `synthesize_entity_page` (rag_wiki/wiki/synthesis.py:179) says duplicates are
  merged into the claimed payload; the payload is never written back.
  `JobRequests.LossExactly` says which requests each event loses, crashes and
  provider skips included; `JobRequests.ReleaseLosesMergedRequests` is such a run.
- A page write replaces the page's `synthesized_from_sources` by the merged list
  (rag_wiki/wiki/synthesis.py:291-294), so a source named there once is forgotten
  by a later write that does not name it. `JobRequests.OnPageExactly` says when a
  request is still on its page, `JobRequests.LaterWriteForgetsSource` is a run.
- `split_by_sections` (rag_wiki/ingest/chunking.py:46) says chunks hold at most
  `max_chars`. The overlap pass keeps that bound exactly when every chunk fits
  behind the tail of the one before (`ChunkingProperties.OverlapBoundExactly`;
  on the sections themselves, `ChunkGrouping.PackedBoundExactly`), and with an
  overlap of zero the tail is the whole previous chunk. Two sections of
  `max_chars` break it for every overlap
  (`ChunkingProperties.TwoFullSectionsOverflow`). With an overlap of `max_chars`
  or more an oversized paragraph is dropped, or refused when the two are equal
  (`ChunkingProperties.NothingIsLostExactly`, `Chunking.SplitBySections`).
- `generate_slug` (rag_wiki/wiki/slug.py:6-8) says uniqueness is guaranteed;
  `Slugs.SlugsCollideExactly` says when two slugs are equal,
  `Slugs.DifferentEntitiesOneSlug` is a pair.
- A comparison divides the caller's budget among the entities
  (rag_wiki/retrieval/orchestrator.py:179); slots that ignore the budget can
  still exceed it (`Comparison.TwoIsolatedEntitiesOverspend`). The exact conditions,
  over all chunks and for some, are `Comparison.FitsForAllChunks` and
  `Comparison.FitsForSomeChunks`.
- The planner's cache is called an LRU cache (rag_wiki/planner/query.py:62-66);
  it is first-in-first-out (`PlannerCache.HitsDoNotRefresh`).
- `merge_entity` de-duplicates `wiki_page_entities` after its UPDATE
  (rag_wiki/graph/merge.py:200-211); the composite primary key has refused a
  duplicate by then, so a page that mentions both entities makes the merge
  fail (`GraphMerge.MentionUpdateOk`).
- `merge_entity` accepts an entity merged into itself and then deletes it
  (`GraphMerge.QuotientExactlyWhenDistinct`).

## Model

| member | source | states |
|---|---|---|
| GraphMerge.GraphSession.MergeEntity | rag_wiki/graph/merge.py:21-246 | a merge succeeds, or fails with a given error, exactly under the stated conditions; on success with two entities the tables are the quotient by from ↦ into with one row per relation key, and with one entity it is erased; constraints hold throughout |
| GraphMerge.GraphSession.Execute | rag_wiki/graph/merge.py:79-227 | a statement takes effect only if every constraint holds after it, and otherwise aborts the transaction |
| GraphMerge.GraphSession.RepointRelations | rag_wiki/graph/merge.py:79-114 | wherever the two UPDATEs leave the rows, exactly one row per redirected key survives, and the keys are the image of the old keys |
| GraphMerge.GraphSession.RepointLinks | rag_wiki/graph/merge.py:128-150 | the chunk links become their image, without breaking the primary key |
| GraphMerge.GraphSession.RepointPages | rag_wiki/graph/merge.py:152-175 | no page is lost; the absorbed entity's page passes on, or is orphaned when the target has one |
| GraphMerge.GraphSession.RepointMentions | rag_wiki/graph/merge.py:177-186 | the mention UPDATE succeeds exactly when no page mentions both entities |
| GraphMerge.GraphSession.Finish | rag_wiki/graph/merge.py:198-227 | the de-duplication removes nothing, and the audit row is accepted exactly when its references exist |
| GraphMerge.DeleteCascadesToNothing | rag_wiki/graph/merge.py:224-227 | the final DELETE cascades to no row of any table, so the result is the quotient |
| GraphMerge.DeleteErases | rag_wiki/graph/merge.py:224-227 | merging an entity into itself removes it with its relations, links and mentions |
| GraphMerge.QuotientExactlyWhenDistinct | rag_wiki/graph/merge.py:47-78 | a successful merge keeps the target, and is a quotient, exactly when the two ids differ |
| GraphMerge.MentionUpdateOk | rag_wiki/db/models/wiki.py:68-73 | the composite primary key lets the UPDATE through exactly when no page mentions both |
| GraphTables.RelationsCollapse | rag_wiki/graph/merge.py:103-114 | keeping the first physical row of each key of any permutation of the redirected rows is the collapsed relation table |
| MergedTables.OutcomeExactly | rag_wiki/graph/merge.py:47-227 | exactly when a merge finds no source or no target, and exactly when it succeeds, on the ids, mentions, chunks and jobs there |
| MergedTables.MergedRows | rag_wiki/graph/merge.py:79-227 | entities, links, mentions and log after a merge of two entities, row by row, and that nothing else changes |
| MergedTables.MergedPages | rag_wiki/graph/merge.py:152-175 | every page keeps its place, slug and text; the absorbed entity's page goes to the other entity, or to nobody when that one has a page; no other page changes hands |
| MergedTables.RelationsCome | rag_wiki/graph/merge.py:79-114 | each relation left is an earlier row with its ends renamed and id, kind, chunk and tag kept |
| MergedTables.RelationsAreAnswered | rag_wiki/graph/merge.py:79-114 | each earlier row is answered by one left with its renamed ends, its kind and its chunk |
| MergedTables.RelationsAreApart | rag_wiki/graph/merge.py:103-114 | no two relations left agree in both ends, kind and chunk |
| MergedTables.ErasedRows | rag_wiki/graph/merge.py:213-227 | what merging an entity into itself leaves in each table |
| MergedTables.ErasedRelations | rag_wiki/graph/merge.py:224-227 | the relations left by that say exactly what those said that did not name it |
| MergedTables.ConstraintsExactly | rag_wiki/db/models/wiki.py:28-73 | the constraints hold exactly of tables in which no key repeats and no reference dangles |
| UnionFind.RunsAreUnionFind | rag_wiki/graph/merge.py:21-246 | over all runs of creations, insertions, merges and deletions of sources: a state is a union-find (each entity ever created live or absorbed by one log row, find leading to a live entity, relation keys and links the image under find of all ever inserted and not deleted) exactly when no entity was merged into itself before it |
| UnionFind.OrdinaryRunsAreUnionFind | rag_wiki/graph/merge.py:79-227 | the forward half over runs that merge distinct entities only, by induction over every kind of change |
| UnionFind.SelfRowsStay | rag_wiki/graph/merge.py:213-227 | the log row of a self-merge is there ever after, and no state with one is a union-find |
| UnionFind.DeletionKeepsInv | rag_wiki/api/routes/source.py:328-349 | deleting a source's chunks takes exactly their relations and links and empties their log references, and the union-find stays |
| UnionFind.ChaseIsFind | rag_wiki/db/models/graph.py:84-105 | following merged_into pointers terminates, at the representative find gives |
| UnionFind.MergeUnites | rag_wiki/db/models/graph.py:84-105 | both ends of every logged merge have one representative ever after |
| UnionFind.FindIsLeast | rag_wiki/db/models/graph.py:84-105 | find identifies nothing that the logged merges do not |
| UnionFind.MergeLogIsAcyclic | rag_wiki/db/models/graph.py:84-105 | no path through the merge log, of any length, returns to its start |
| UnionFind.MergeBecomes | rag_wiki/graph/merge.py:21-246 | what a successful merge does to the tables, of two entities or of one with itself, is one event of a run |
| UnionFind.RunGoesOn | rag_wiki/graph/merge.py:79-227 | events that take a run's last tables to others, with identifiers never used before, carry the run on to those tables |
| ResolutionRuns.ResolutionGoesOn | rag_wiki/graph/resolution.py:142-385 | a run without self-merges goes on through a successful resolution, event by event, and what that leaves is still a union-find |
| ResolutionRuns.ResolutionIsFresh | rag_wiki/graph/resolution.py:213-347 | a resolution creates each of its identifiers once and merges no entity into itself |
| Resolution.Resolver.ResolveEntities | rag_wiki/graph/resolution.py:142-385 | returns normally exactly when every embedding, decision and merge target is good and every relation index was resolved; then it adds one entity per candidate decided new and none per merge, links the chunk to exactly the resolved entities, adds exactly the translated relation keys, does all of it as creations, merges, links and relations in that order, and holds no lock it did not hold before |
| Resolution.Resolver.ResolveCandidates | rag_wiki/graph/resolution.py:176-347 | resolved indices are exactly the candidates whose lock was granted |
| Resolution.Resolver.ResolveOne | rag_wiki/graph/resolution.py:194-347 | one candidate's outcome by decision, with its lock released on every way out |
| Resolution.Resolver.AbsorbInto | rag_wiki/graph/resolution.py:277-314 | creating an entity to merge it at once leaves the graph as it was, plus one log row, and fails exactly when the target is missing |
| Resolution.Resolver.InsertLinks | rag_wiki/graph/resolution.py:349-354 | the links grow by exactly the deferred ones, whatever is there already |
| Resolution.Resolver.InsertRelations | rag_wiki/graph/resolution.py:356-378 | succeeds exactly when every index is resolved, and then the keys grow by exactly the translated triples |
| Resolution.MergingFreshChangesNothing | rag_wiki/graph/resolution.py:279-296 | the quotient of a graph by a fresh, unconnected entity is that graph |
| ResolvedRows.ReturnsExactly | rag_wiki/graph/resolution.py:142-385 | a resolution returns exactly when every embedding arrives, each granted candidate has a valid decision on a target that is there by then, and the relations name granted candidates |
| ResolvedRows.ResolvedExactly | rag_wiki/graph/resolution.py:194-347 | a candidate is resolved exactly when its lock was granted, to the target it was merged into or to its own new entity |
| ResolvedRows.LinkedExactly | rag_wiki/graph/resolution.py:349-354 | the chunk is linked to exactly the entities its candidates stand for |
| ResolvedRows.ResolutionLeaves | rag_wiki/graph/resolution.py:213-378 | the relation table ends with one row per extracted relation, in order, ends resolved, kind and chunk kept, marked INFERRED; the log gains exactly one row per candidate merged away, with its reason, chunk and job |
| Traversal.RunQuery | rag_wiki/retrieval/traversal.py:28-49 | the recursive query terminates on every graph and yields exactly the pairs of an entity and the length of a walk to it, within the hop limit |
| Traversal.HopDistances | rag_wiki/retrieval/traversal.py:28-53 | the hop map holds v with d exactly when the shortest undirected path from an existing seed to v has length d within the limit |
| Traversal.DerivedIsNextLevel | rag_wiki/retrieval/traversal.py:37-48 | one round of the recursive term yields exactly the next level of walks |
| Traversal.NoLongerWalks | rag_wiki/retrieval/traversal.py:28-49 | once a level is empty every later one is, so stopping early misses nothing |
| TraversalLimits.ForEachHop | rag_wiki/retrieval/traversal.py:119-178 | emitting shaped buckets in ascending hop order keeps each hop's shaped group and a ranked list |
| TraversalLimits.KeepWithinLimits | rag_wiki/retrieval/traversal.py:116-190 | every hop is filled to its cap from its first rows, nearest hops first, up to the total, in rank order, and the total cap drops none that ranks before one kept |
| TraversalRanking.BestAreKept | rag_wiki/retrieval/traversal.py:116-190 | counted on rows: of two kept entities the earlier is nearer, or as near with at least as many relation ends (a self-loop has two); everything kept is among the first rows of its hop; whatever else is among them is dropped by the total cap alone, for entities at least as good |
| TraversalLimits.QuotasFilled | rag_wiki/retrieval/traversal.py:168-178 | the second cut per hop drops nothing |
| TraversalLimits.TruncationKeepsNearest | rag_wiki/retrieval/traversal.py:180-190 | truncation drops from the farthest hop only, and no hop before a kept entity is short |
| TraversalLimits.CollectRelations | rag_wiki/retrieval/traversal.py:195-212 | the relations returned are exactly those with one end kept and the other kept or a seed, each once |
| TraversalRanking.RelationsBetweenKept | rag_wiki/retrieval/traversal.py:192-212 | those are the relations between entities kept or seeds, not between two seeds |
| TraversalRanking.RelationsInOrder | rag_wiki/retrieval/traversal.py:195-212 | they come in the order of the first kept entity at an end, for one entity those it starts before those it ends, and then in table order |
| TraversalLimits.Traverse | rag_wiki/retrieval/traversal.py:65-226 | the whole traversal after the query: what is kept, which relations in which order, which hops, and no entities without relations |
| TraversalLimits.ReportedHops | rag_wiki/retrieval/context.py:287-293 | both ends of a returned relation are in the hop map, at most one hop apart, so the reported hop is between 1 and the limit plus one |
| TraversalLimits.NeighboursAreClose | rag_wiki/retrieval/traversal.py:28-53 | adjacent entities of a hop map differ by at most one hop |
| TraversalLimits.EntitiesBringRelations | rag_wiki/retrieval/traversal.py:110-212 | whatever the caps, a traversal returns relations exactly when it returns entities besides the seeds |
| Chunking.SplitBySections | rag_wiki/ingest/chunking.py:31-112 | the loops compute the fold followed by the overlap pass, or raise exactly when a slicing step of zero is reached |
| Chunking.SplitSection | rag_wiki/ingest/chunking.py:62-89 | the paragraph loop of an oversized section |
| Chunking.SliceParagraph | rag_wiki/ingest/chunking.py:79-85 | the slices of an oversized paragraph, none for a negative step |
| Chunking.ApplyOverlap | rag_wiki/ingest/chunking.py:115-132 | each later chunk is prefixed with the tail of its unmodified predecessor |
| ParagraphChunks.SplitBlankSplits | rag_wiki/ingest/chunking.py:26-28 | splitting gives parts that joined by blank lines are the text, none with a blank line in it, each ending at the first one left |
| ParagraphChunks.SplitIsUnique | rag_wiki/ingest/chunking.py:26-28 | a text has only one such split |
| ParagraphChunks.StripTrims | rag_wiki/ingest/chunking.py:26-28 | a part is kept without the whitespace around it, dropped when nothing is left |
| ParagraphChunks.LongSectionChunks | rag_wiki/ingest/chunking.py:62-90 | a section longer than max adds exactly the chunks of its paragraphs, in order, whatever came before it; without paragraphs those of its whole text |
| ParagraphChunks.FittingParagraphs | rag_wiki/ingest/chunking.py:69-76 | when all paragraphs fit that is one chunk per paragraph, headed by its first line and on the section's page |
| ParagraphChunks.SlicesAt | rag_wiki/ingest/chunking.py:77-85 | slice k of a longer paragraph starts k steps of max less overlap into it and holds max characters or what is left; only the first has a heading, a quarter of the paragraph or eighty characters |
| ParagraphChunks.ShortSectionChunk | rag_wiki/ingest/chunking.py:91-109 | a section that fits joins the last chunk, behind a blank line and on their common page, exactly when that chunk is open and has room; else it is a chunk of its own |
| ParagraphChunks.ZeroStepExactly | rag_wiki/ingest/chunking.py:79-79 | a slicing step of zero is reached exactly when overlap and max agree and some section too long has no paragraph or one too long |
| ParagraphChunks.OverlappedAt | rag_wiki/ingest/chunking.py:115-132 | chunk by chunk: which characters of the one before are put in front, and which heading a chunk gets |
| ChunkingProperties.ChunkSizes | rag_wiki/ingest/chunking.py:53-132 | before the overlap pass every chunk is non-empty and within max; after it, with a positive overlap, within max plus overlap |
| ChunkingProperties.OverlapBoundExactly | rag_wiki/ingest/chunking.py:115-132 | for every overlap, chunks within max stay within max after the overlap pass exactly when each chunk fits behind the tail of the one before |
| ChunkingProperties.TwoFullSectionsOverflow | rag_wiki/ingest/chunking.py:46-46 | for every positive max and every overlap two sections of max characters exceed the documented bound |
| ChunkingProperties.ZeroOverlapRepeatsChunks | rag_wiki/ingest/chunking.py:126-129 | with an overlap of zero each chunk repeats the whole chunk before it |
| ChunkingProperties.OverlapIsInvertible | rag_wiki/ingest/chunking.py:115-132 | the texts before the overlap pass can be computed from those after it, for every overlap |
| ChunkingProperties.SlicesRecoverParagraph | rag_wiki/ingest/chunking.py:79-85 | a paragraph is its slices with the first overlap characters of each later slice dropped |
| ChunkingProperties.NothingIsLost | rag_wiki/ingest/chunking.py:53-109 | for every overlap below max the new parts of the chunks spell the sections, whitespace aside, in order |
| ChunkingProperties.NothingIsLostExactly | rag_wiki/ingest/chunking.py:79-85 | for every input they do so exactly when the overlap is below max or no section with text has a paragraph too long for one chunk |
| ChunkGrouping.PackedIsGreedy | rag_wiki/ingest/chunking.py:91-109 | for sections that fit, the packer's chunks are the greedy groups of consecutive sections |
| ChunkGrouping.GreedyIsOptimal | rag_wiki/ingest/chunking.py:61-109 | no order-preserving grouping within max has fewer groups |
| ChunkGrouping.GreedyStaysAhead | rag_wiki/ingest/chunking.py:91-109 | after every section greedy has fewer groups than any grouping, or as many and a last one no longer |
| ChunkGrouping.ChunksJoinToSections | rag_wiki/ingest/chunking.py:91-109 | the chunks joined by blank lines are the sections joined by blank lines |
| ChunkGrouping.GreedyNeighboursNeverFit | rag_wiki/ingest/chunking.py:91-109 | no group could have taken the first section of the next |
| ChunkGrouping.PackedBoundExactly | rag_wiki/ingest/chunking.py:91-132 | for sections that fit, the output stays within max exactly when every group fits behind the tail of the group before |
| ChunkGrouping.WholeTailBoundExactly | rag_wiki/ingest/chunking.py:126-129 | where the tail is the whole previous chunk that means the next group misses it by no more than the blank line between them |
| ChunkGrouping.ChunkPages | rag_wiki/ingest/chunking.py:92-99 | a chunk's page is the page all its sections share, or none |
| JobSafety.RunsAreSafe | rag_wiki/jobs/__init__.py:27-199 | in every state of every run: failed exactly when attempts are max_retries + 1, pending implies claimable, ingests all or nothing, one spawned job for exactly the linked entities, pages hold recorded sources only, requests conserved |
| JobSafety.StepKeepsJobs | rag_wiki/jobs/__init__.py:137-199 | every event keeps the job state machine, and completed and failed jobs do not change |
| JobSafety.StepKeepsRows | rag_wiki/worker.py:60-118 | chunks are visible exactly for completed ingests and come from the completing attempt alone |
| JobSafety.StepKeepsSpawns | rag_wiki/ingest/pipeline.py:259-283 | each completed ingest, and nothing else, has spawned one job per entity of a duplicate-free list that holds every linked one, and one summary |
| JobSafety.StepKeepsExact | rag_wiki/ingest/pipeline.py:252-283 | the entities spawned for are exactly those linked to the source when that ingest committed |
| JobSafety.StepKeepsPages | rag_wiki/wiki/synthesis.py:291-310 | a page names only sources that some page write recorded for its entity |
| JobSafety.StepConserves | rag_wiki/worker.py:60-118 | every request ever made has been recorded by a page write, is waiting or was given up |
| JobSafety.CoalescingConserves | rag_wiki/wiki/synthesis.py:129-162 | what was pending before equals the merged list plus what is still pending, and no other pending job of the entity remains |
| QueueRows.EnqueuedRow | rag_wiki/jobs/__init__.py:42-81 | a new job waits behind all others, unclaimed, no attempt used |
| QueueRows.ClaimIsEarliest | rag_wiki/jobs/__init__.py:84-134 | no claimable job was due before the one claimed: unscheduled before scheduled, then by schedule, then by age |
| QueueRows.IngestedJobs | rag_wiki/ingest/pipeline.py:252-283 | an ingest completes its own job and adds one synthesis per entity and one summary of its source, with three retries |
| QueueRows.CoalescedRows | rag_wiki/wiki/synthesis.py:129-162 | a synthesis of an entity completes exactly the other pending syntheses of that entity; no other row changes |
| QueueRows.CoalescedSources | rag_wiki/wiki/synthesis.py:146-162 | it holds exactly its own sources and theirs |
| QueueRows.CancelledRows | rag_wiki/wiki/synthesis.py:71-117 | a summary of a source completes exactly the other pending summaries of that source; no other row changes |
| QueueRows.SummaryIsNotLost | rag_wiki/wiki/synthesis.py:89-107 | over every run a source with a pending or held summary keeps one until a summary of that same source finishes, uses up its retries or crashes after its commit |
| QueueRows.EndedRows | rag_wiki/jobs/__init__.py:137-199 | the held job's row after every way a body can end, retries included; all other rows stay |
| QueueRows.WrittenPages | rag_wiki/wiki/synthesis.py:291-310 | only a page write changes pages, and it sets one entity's sources to those its job held |
| JobOutcomes.TerminalForever | rag_wiki/jobs/__init__.py:137-199 | from any state of a run to any later one completed and failed jobs stay as they are |
| JobOutcomes.IngestIsFinal | rag_wiki/worker.py:60-118 | from any state of a run on, a completed ingest keeps exactly its chunks, links and spawned jobs |
| JobOutcomes.StrandedForever | rag_wiki/jobs/__init__.py:27-39 | a processing job nobody holds is never touched again in the run |
| JobOutcomes.CrashStrands | rag_wiki/worker.py:60-118 | a crash leaves the job processing exactly when its body had committed, and otherwise claimable |
| JobOutcomes.ProcessingIsHeld | rag_wiki/worker.py:60-118 | without such crashes the only processing job is the held one |
| JobRequests.RecordedExactly | rag_wiki/wiki/synthesis.py:291-310 | over every run a request is recorded exactly when some page write merged its source |
| JobRequests.OnPageExactly | rag_wiki/wiki/synthesis.py:291-310 | over every run a request is on its page exactly when a write merged it and no later write of that page left it out |
| JobRequests.LaterWriteForgetsSource | rag_wiki/wiki/synthesis.py:291-294 | a run without any failure in which a recorded source is on no page at the end |
| JobRequests.LossExactly | rag_wiki/wiki/synthesis.py:176-310 | for every event, crashes and provider skips included, exactly which requests stop waiting |
| JobRequests.LossAfterCoalescing | rag_wiki/wiki/synthesis.py:176-221 | after coalescing a failure or release loses exactly the merged requests that nothing pending carries |
| JobRequests.ReleaseLosesMergedRequests | rag_wiki/wiki/synthesis.py:208-221 | a run in which a merged request ends neither waiting nor in any page write |
| JobRequests.GentleRunsLoseNothing | rag_wiki/wiki/synthesis.py:208-310 | in runs without provider skips, releases, exhausted retries or failures or crashes after coalescing every request was recorded by a page write or is waiting |
| JobRequests.WaitsUntilWritten | rag_wiki/wiki/synthesis.py:208-310 | in such a run a waiting request waits until a page write from then on merges it, also when it was recorded before |
| JobRequests.MadeRequestsWait | rag_wiki/jobs/__init__.py:42-81 | whatever an event requests is waiting right after it |
| JobRequests.RequestsAreServed | rag_wiki/wiki/synthesis.py:208-310 | so every single request, repeated ones too, waits or is served by a later page write |
| JobWorker.PendingIsClaimable | rag_wiki/jobs/__init__.py:32-33 | the claim's bound on attempts never keeps a pending job from being claimed |
| JobWorker.Database.ClaimNext | rag_wiki/jobs/__init__.py:84-134 | claims a job with no claimable job before it in schedule order, or none when nothing is pending |
| JobWorker.Database.Enqueue | rag_wiki/jobs/__init__.py:42-81 | adds one pending job and keeps the invariant |
| JobWorker.Database.CommitIngest | rag_wiki/ingest/pipeline.py:196-283 | commits chunks, links and spawned jobs together, or nothing when every chunk failed |
| JobWorker.ProcessChunks | rag_wiki/ingest/pipeline.py:196-250 | every chunk leaves a row, failed ones too, and the successes are counted |
| JobWorker.EnqueueSynthesis | rag_wiki/ingest/pipeline.py:259-283 | one job per entity in order, then the summary |
| JobWorker.MergeDuplicateJobs | rag_wiki/wiki/synthesis.py:129-162 | the loop completes exactly the duplicates and gathers exactly their sources |
| JobWorker.Database.CoalesceDuplicates | rag_wiki/wiki/synthesis.py:208-210 | the coalescing transaction follows the protocol |
| JobWorker.Database.FinishPage | rag_wiki/wiki/synthesis.py:266-310 | the page write records exactly the merged sources; a provider error completes the job without it |
| JobWorker.Database.StartSummary | rag_wiki/wiki/synthesis.py:71-117 | the other pending summaries of the source, and no others, are completed |
| JobWorker.Database.FinishSummary | rag_wiki/worker.py:86-87 | the summary job completes and the worker is idle |
| JobWorker.Database.Fail | rag_wiki/worker.py:104-118 | the failure handler follows the protocol and keeps the invariant |
| JobWorker.Database.Release | rag_wiki/worker.py:93-103 | the lock-exhaustion handler follows the protocol and keeps the invariant |
| JobWorker.RunBody | rag_wiki/worker.py:72-118 | whatever the body does, the worker is idle after it, and unless the entity's lock was busy fewer attempts are left, ingests first |
| JobWorker.SettlingIsCloser | rag_wiki/jobs/__init__.py:165-199 | an attempt used up or a job finished lowers the lexicographic measure, although ingests spawn jobs |
| JobWorker.WorkerLoop | rag_wiki/worker.py:60-121 | whatever arrives, fails or meets a busy lock up to some poll, once nothing arrives and no lock is busy the loop empties the queue: no pending job, every request recorded or given up |
| Budgets.TruncateToBudget | rag_wiki/retrieval/scoring.py:30-46 | keeps the prefix all of whose non-empty prefixes, and no longer ones, fit the budget |
| Budgets.FittingIsLongest | rag_wiki/retrieval/context.py:104-115 | the kept items are that prefix |
| Budgets.LongestFitIsUnique | rag_wiki/retrieval/scoring.py:30-46 | there is only one |
| Budgets.JoinedWithinSlot | rag_wiki/retrieval/scoring.py:22-46 | joined text of items within a budget holds at most ((7 + gap) · budget − gap) / 4 tokens |
| Budgets.SlotBoundIsReached | rag_wiki/retrieval/scoring.py:22-46 | for every budget and separator some items reach that bound |
| WikiSections.ParseSections | rag_wiki/retrieval/context.py:81-101 | the parsing loop cuts and tags the page's lines as specified |
| WikiSections.CutLinesCuts | rag_wiki/retrieval/context.py:81-101 | the blocks hold the lines in order, cut exactly at the headings |
| WikiOrder.SectionTags | rag_wiki/retrieval/context.py:67-101 | a section's tag by its first line: by the title of a level-two heading, else prose |
| WikiSections.SectionsAreLossless | rag_wiki/retrieval/context.py:81-101 | section texts joined by newlines are the page's lines |
| WikiSections.FetchWikiPage | rag_wiki/retrieval/context.py:118-172 | orders, truncates and reports the page found, or nothing |
| WikiSections.KeptComeFirst | rag_wiki/retrieval/context.py:148-156 | no kept section ranks behind one that was cut off |
| WikiOrder.SectionsInOrder | rag_wiki/retrieval/context.py:144-154 | sections are taken in the order prose and unlisted tags, relationships, contradictions, sources, other; page order within each; none lost or repeated |
| WikiOrder.SnapshotShows | rag_wiki/retrieval/context.py:154-172 | the text shown is the longest run from the start of that order that fits the slot, with a blank line between sections, and page size and sources are the page's own |
| WikiSections.SameRankKeepsPageOrder | rag_wiki/retrieval/context.py:154-154 | sections of one rank keep the page's order |
| WikiSections.SnapshotAccounts | rag_wiki/retrieval/context.py:157-160 | included and dropped tags together are the page's tags, each as often as it occurs |
| WikiSections.IncludedAreTheKept | rag_wiki/retrieval/context.py:157-160 | the included tags are those kept exactly when no section behind repeats a kept text |
| WikiSections.TruncatedExactly | rag_wiki/retrieval/context.py:168-168 | a page is reported truncated exactly when its sections together cost more than the slot |
| WikiSections.SnapshotWithinSlot | rag_wiki/retrieval/context.py:163-166 | the slot's text stays within the bound for its budget |
| Deduplication.DeduplicateChunks | rag_wiki/retrieval/scoring.py:120-159 | the two loops keep the greedy survivors |
| Deduplication.KeptAreApart | rag_wiki/retrieval/scoring.py:138-159 | no kept chunk repeats an earlier kept one |
| Deduplication.DroppedRepeatEarlier | rag_wiki/retrieval/scoring.py:138-159 | position by position, equal chunks included: a chunk survives exactly when it is embedded and repeats no survivor before it |
| Deduplication.SurvivesExactly | rag_wiki/retrieval/scoring.py:138-159 | the same on the vectors: a chunk survives exactly when it has one and no survivor before it has one of its dimension that is similar |
| Deduplication.DedupIsIdempotent | rag_wiki/retrieval/scoring.py:138-159 | a second pass drops nothing |
| Deduplication.DedupedOfConcat | rag_wiki/retrieval/scoring.py:138-159 | the survivors of a prefix are a prefix of the survivors of the whole |
| Deduplication.SeedsIgnoreHops | rag_wiki/retrieval/context.py:381-399 | hop chunks never change which seed chunks survive, and filtering by id keeps the survivors in order |
| ChunkPairs.PairChunks | rag_wiki/retrieval/context.py:337-369 | the dictionary loops give each linked chunk to its first linked seed, or else to its first entity |
| ChunkPairs.GroupLinks | rag_wiki/retrieval/context.py:337-339 | the dictionary groups entities by chunk in first-seen order |
| ChunkPairs.SeedPairsExactly | rag_wiki/retrieval/context.py:359-369 | the seed pairs are the fetched chunks some seed is linked to, each once |
| ChunkPairs.HopPairsExactly | rag_wiki/retrieval/context.py:359-369 | the hop pairs are the other fetched chunks with a link, each once |
| ChunkPairs.SeedPairsAreLinked | rag_wiki/retrieval/context.py:365-367 | a seed chunk is shown for a seed it is linked to |
| ChunkPairs.HopPairsAreLinked | rag_wiki/retrieval/context.py:368-369 | a hop chunk is shown for an entity it is linked to |
| ChunkPairs.ScoreChunkPairs | rag_wiki/retrieval/context.py:175-218 | embeds what is missing, drops what cannot be compared; the scores do not increase, and chunks of one score keep the order of the pairs |
| ChunkPairs.ScoredAreRanked | rag_wiki/retrieval/context.py:175-218 | the scored list is a permutation of the comparable pairs with their cosines, from most to least similar, stable among equal ones |
| ChunkPairs.ScoredSidesAreDistinct | rag_wiki/retrieval/context.py:359-379 | the scored seed and hop lists together hold each chunk at most once |
| ContextAssembly.AssembleContext | rag_wiki/retrieval/context.py:240-482 | every field of the result, what every slot holds and counts; the total is at most the larger of the caller's budget and the fixed slots, and within the budget exactly when the fixed slots are |
| ContextAssembly.AssembledWithin | rag_wiki/retrieval/context.py:311-317 | the same bounds of the assembled value, and that its slots account for its total |
| ContextAssembly.GatherChunks | rag_wiki/retrieval/context.py:330-414 | the chunk slots are the truncated survivors, seeds independent of hops |
| ShownChunks.SeedScoredAre | rag_wiki/retrieval/context.py:337-379 | exactly the fetched chunks that some row links to a seed are scored on the seed side, each for the seed of the first such row |
| ShownChunks.HopScoredAre | rag_wiki/retrieval/context.py:337-379 | exactly those linked to traversed entities and to no seed are scored on the other side, each for the entity of its first row |
| ShownChunks.ShownBestFirst | rag_wiki/retrieval/context.py:210-218 | both chunk lists of a result run from the most to the least similar |
| ShownChunks.TiesByFirstRow | rag_wiki/retrieval/context.py:337-379 | chunks of one similarity come in the order of their first link rows |
| ShownChunks.ShownSeedChunks | rag_wiki/retrieval/context.py:401-404 | a seed chunk is shown with its own text and similarity, for its seed, at hop 0 |
| ShownChunks.ShownHopChunks | rag_wiki/retrieval/context.py:405-411 | a hop chunk is shown for its entity at that entity's hop, or at hop 1 when it has none |
| ShownChunks.NoBetterSeedChunkIsCut | rag_wiki/retrieval/context.py:381-414 | a seed chunk that is not shown repeats one at least as similar, or is no more similar than any shown |
| ShownChunks.NoBetterHopChunkIsCut | rag_wiki/retrieval/context.py:381-414 | a hop chunk that is not shown repeats a seed chunk or one at least as similar, or is no more similar than any shown |
| AssembledFields.FixedFields | rag_wiki/retrieval/context.py:254-310 | query, time, seeds, edges, traversal counts, the first seed's page, and the exact sizes of the anchor, subgraph, wiki and instruction slots |
| AssembledFields.TotalFields | rag_wiki/retrieval/context.py:416-439 | total, budget, utilization and the sizes of the chunk slots |
| AssembledFields.ChunkFields | rag_wiki/retrieval/context.py:311-414 | the pool is what the fixed slots leave; without it or without an entity there are no chunks, else each list is the longest run of survivors that fits its part of the pool |
| AssembledFields.CountFields | rag_wiki/retrieval/context.py:359-388 | as fetched count the chunks some row links to a seed or traversed entity; as left, the survivors of one de-duplication over both sides, seeds first |
| AssembledFields.EntitiesAre | rag_wiki/retrieval/context.py:319-323 | the entities whose links are read are the seeds' and those the traversal kept |
| ContextAssembly.ChunksFitElastic | rag_wiki/retrieval/context.py:311-317 | both chunk slots together stay within the elastic pool |
| ContextAssembly.FixedTokensBound | rag_wiki/retrieval/context.py:264-310 | for every input the fixed slots hold at least 38 tokens and at most the sum of their bounds |
| ContextAssembly.ShippedBound | rag_wiki/settings.py:71-75 | with the shipped slot budgets that sum is 3483 |
| ContextAssembly.AssembleShipped | rag_wiki/settings.py:71-75 | a default call never exceeds its 3600 tokens |
| AssemblyLimits.AssembledBelowCeiling | rag_wiki/retrieval/context.py:311-414 | an assembly stays below its ceiling: fixed slots and elastic pool, but only the seeds' share of the pool where the traversal kept no entity |
| AssemblyLimits.FilledIsFull | rag_wiki/retrieval/context.py:311-414 | for given seeds, traversal and page some chunks, of any length, take it to that ceiling |
| AssemblyLimits.HoplessHasNoHopSlot | rag_wiki/retrieval/context.py:359-369 | an entity the traversal takes nowhere never gets hop chunks |
| AssemblyLimits.WithoutChunksOnlyFixed | rag_wiki/retrieval/context.py:318-329 | the lower bound is reached: without linked chunks the total is the fixed slots |
| ResultMerging.MergeRetrievalResults | rag_wiki/retrieval/context.py:485-569 | the merging loops compute the merge, and an empty list is refused |
| ResultMerging.CollectFirst | rag_wiki/retrieval/context.py:498-532 | one de-duplicating loop keeps the first row of each key over all results |
| ResultMerging.MergeIsAssociative | rag_wiki/retrieval/context.py:485-569 | merging a merged prefix with the rest is merging everything at once, in every field |
| MergedResults.ColumnsOfTwo | rag_wiki/retrieval/context.py:534-569 | two results merge column by column: counts and totals add up, the larger budget, the first page there is, the first query and time, utilization of the whole |
| MergedResults.ListsOfTwo | rag_wiki/retrieval/context.py:498-532 | their lists keep the first row of each: seeds by entity, edges by both ends and relation, chunks by id; the chunks shown are counted once |
| MergedResults.MergedOneByOne | rag_wiki/retrieval/context.py:485-497 | one result is its own merge, and any number are merged one at a time |
| ResultMerging.MergeKeepsAccounts | rag_wiki/retrieval/context.py:534-547 | slots still sum to the total and still cover the chunks the merge shows |
| Comparison.RetrieveComparison | rag_wiki/retrieval/orchestrator.py:147-220 | each entity found is assembled with its share of the budget and the results are merged, or a single pass is the fallback; within the budget when every entity's fixed slots fit its share, above it with fewer than 38 tokens per entity |
| Comparison.ComparisonWithinBudget | rag_wiki/retrieval/orchestrator.py:179-213 | within the budget when the ceilings together are, so always when every entity's fixed slots fit its share; above it when the fixed slots alone are |
| Comparison.ShareIsFloor | rag_wiki/retrieval/orchestrator.py:179-179 | the share is the budget over the entities compared, found or not, rounded down |
| Comparison.FoundAreInOrder | rag_wiki/retrieval/orchestrator.py:182-201 | what is assembled and merged are the entities with a seed, in the order of the comparison |
| Comparison.FitsForAllChunks | rag_wiki/retrieval/orchestrator.py:179-213 | given seeds, traversals and pages, every choice of chunks stays within the budget exactly when the ceilings together do |
| Comparison.FitsForSomeChunks | rag_wiki/retrieval/orchestrator.py:179-213 | some choice of chunks does exactly when the fixed slots sum to at most it |
| Comparison.IsolatedIsFixed | rag_wiki/retrieval/context.py:254-310 | what an entity without relations or page costs by its anchor line alone |
| Comparison.TwoIsolatedEntitiesOverspend | rag_wiki/retrieval/orchestrator.py:179-213 | two isolated entities, compared with a budget of 108, account for 109 |
| Slugs.SlugifyIsNormal | rag_wiki/wiki/slug.py:39-41 | slug characters and single inner hyphens only |
| Slugs.SlugifyIsIdempotent | rag_wiki/wiki/slug.py:39-41 | slugifying a slug changes nothing |
| SlugWords.EveryNameHasWords | rag_wiki/wiki/slug.py:16-16 | every name is its words, the longest runs of letters a to z and digits, and the gaps between them |
| SlugWords.SlugIsWords | rag_wiki/wiki/slug.py:39-41 | the slug is the words joined by single hyphens, a hyphen and the identifier's first eight characters |
| Slugs.SlugsCollideExactly | rag_wiki/wiki/slug.py:39-41 | two slugs are equal exactly when the normalized names and the first eight identifier characters are |
| Slugs.DifferentEntitiesOneSlug | rag_wiki/wiki/slug.py:6-8 | two names and two identifiers with one slug, contrary to the docstring |
| ExportProperties.GeneratedPathsAreSafe | rag_wiki/wiki/export.py:206-217 | a generated slug never leads a page to an index, the log or the manifest |
| Export.ExportBundle | rag_wiki/wiki/export.py:654-754 | the run performs exactly the specified storage operations, in order, and counts the changed pages |
| Export.ExportPages | rag_wiki/wiki/export.py:705-724 | the page loop writes changed pages only and remembers all hashes |
| Export.DeleteOrphans | rag_wiki/wiki/export.py:431-452 | deletes each removed path, missing or not |
| Export.FlushLog | rag_wiki/wiki/export.py:399-423 | appends the entries to the log on storage, or does nothing without entries |
| ExportProperties.ExactWhenReady | rag_wiki/wiki/export.py:695-754 | for every bundle a run leaves exactly the rendered pages if and only if the manifest is right about unchanged pages and knows every other page file |
| ExportProperties.RunsStaySynced | rag_wiki/wiki/export.py:695-754 | after any number of runs page files, manifest and replayed log all describe the last run's pages |
| ExportedFiles.PageFiles | rag_wiki/wiki/export.py:206-217 | after a run from a bundle in step, each page's rendering is in entities/ or sources/ under its slug with .md, by its kind, and there is no file besides these and the export's own five |
| ExportedFiles.DirectoriesHoldTheirKind | rag_wiki/wiki/export.py:206-217 | a file under entities/ belongs to an entity page, one under sources/ to a source page |
| ExportedFiles.RunsLeavePageFiles | rag_wiki/wiki/export.py:695-754 | the same after any number of runs, for the pages of the last |
| ExportedFiles.OwnFiles | rag_wiki/wiki/export.py:735-745 | from any bundle a run writes the three indexes and a manifest of exactly the pages' paths and hashes |
| ExportedFiles.LogGrowsBy | rag_wiki/wiki/export.py:384-423 | the log gains exactly one entry for each page added, modified or removed since the run before, with its path and title |
| ExportedFiles.LogKeepsItsStart | rag_wiki/wiki/export.py:399-423 | whatever the log file held before, text or entries, stays at its start |
| ExportProperties.ExportSyncs | rag_wiki/wiki/export.py:695-754 | one run carries a bundle in step with some pages to one in step with the current pages |
| ExportProperties.EntriesReplay | rag_wiki/wiki/export.py:384-423 | the log entries of a run, replayed strictly, lead from the manifest's paths to the current ones |
| ExportProperties.ReplayIsInjective | rag_wiki/wiki/export.py:384-423 | a log replays from at most one set of paths, so a lost entry is never made good by later ones |
| ExportProperties.RepeatChangesNothing | rag_wiki/wiki/export.py:709-722 | a second export of the same pages changes no file and counts no page |
| ExportCrashes.CrashThenSamePages | rag_wiki/wiki/export.py:677-693 | a run cut short before the manifest save and then repeated ends as if never interrupted |
| ExportProperties.RestartIsHarmless | rag_wiki/wiki/export.py:677-693 | a prefix of the operations followed by all of them equals all of them |
| ExportCrashes.CrashesThenOtherPages | rag_wiki/wiki/export.py:677-693 | after any number of interrupted runs over any pages, a completed run over other pages is right exactly when every touched path is recoverable |
| ExportCrashes.CrashThenOtherPages | rag_wiki/wiki/export.py:677-693 | the same for one interrupted run, by its operations |
| ExportCrashes.WithdrawnPageStays | rag_wiki/wiki/export.py:684-687 | the smallest losing case: a page written, the run dies, the page is withdrawn, its file stays |
| ExportCrashes.LostFlush | rag_wiki/wiki/export.py:747-752 | after a crash between manifest and log, a run over any pages leaves pages and manifest right, and the log replays to them exactly when the lost run added and removed no page |
| ExportProperties.DeletionsAreOrphans | rag_wiki/wiki/export.py:726-732 | a run deletes exactly the withdrawn pages' files, never a reserved one |
| PlannerCache.QueryPlanner.ClassifyQuery | rag_wiki/planner/query.py:79-164 | the whole plan, with its termination condition and model, and the cache after every kind of call, model errors included |
| PlannerCache.EscalatesExactly | rag_wiki/planner/query.py:232-263 | a plan is escalated exactly in the middle band of confidence, and then it is deep and asks for at least three seeds |
| PlannerDecisions.PlansAre | rag_wiki/planner/query.py:232-263 | the plan of every answer: depth, seeds and termination by type outside the middle band, deep with at least three seeds inside it |
| PlannerDecisions.DecidesExactly | rag_wiki/planner/query.py:99-164 | which answer decides a call (the caller's type, the cache, the model, the rules), and that it is rejected exactly when no type was forced and the confidence is below the minimum |
| PlannerDecisions.CacheAfterCall | rag_wiki/planner/query.py:126-129 | a call adds one entry exactly when the model answers an unknown key, and a full cache of 128 then loses its oldest |
| PlannerCache.QueryPlanner.CachePut | rag_wiki/planner/query.py:225-230 | a known key moves to the end, a new one evicts the oldest entry of a full cache |
| PlannerCache.CacheIsLastFills | rag_wiki/planner/query.py:225-230 | after any calls the cache is the last 128 fills in fill order, under distinct keys |
| PlannerCache.HitRepeatsFill | rag_wiki/planner/query.py:111-125 | a hit decides, accepts and plans as the call that filled the entry |
| PlannerCache.HitsDoNotRefresh | rag_wiki/planner/query.py:225-230 | asking the oldest key again does not save it from the next eviction |

## Left out

- HTTP routes, the MCP server, the CLI, middleware and providers: plumbing over the modelled parts.
- Parsers, prompts, link rewriting, front matter and index texts: rendered text and parser results are inputs.
- Migrations, deployment scripts and health checks.
- `rag_wiki/wiki/context.py`: its tier budgets repeat the greedy prefix of `Budgets`.
- Columns of an entity other than its id, embeddings, and the search itself: decisions are inputs.
- The identity map of the ORM and pending flushes: a statement sees all earlier ones.
- Physical row order is modelled for relations only, the one table whose surviving duplicate depends on it.
- Two workers, deadlocks, unlocks refused inside an aborted transaction, and locks leaked with pooled connections.
- Deletion of a source is modelled for relations, links and the merge log; its file, its row and its jobs are not. Job columns other than those the queue decides by (`claimed_at`, `completed_at`, `result`, the payload beyond source ids) are left out.
- A source's own status: the worker's rollback undoes a failed one.
- `scheduled_at` orders claims and delays none, as in the code; the waiting between polls is not modelled.
- Cosine values: scores matter by their order and a threshold predicate; NaN is excluded.
- The rounded-down 0.6 share of the elastic pool is any function that gives at most the pool.
- Anchor and edge lines, the page's `splitlines`, lower-casing and `sorted` are inputs or abstract functions.
- Traversal limits are natural numbers; negative settings would slice from the end.
- A file half written by a crash; the log's timestamps.
- Regular expressions of the keyword rules and the parsing of a model's classification: their results are inputs.
- ContextAssembly.AssembleContext: the utilization is its exact ratio under an abstract rounding function.
- Comparison.RetrieveComparison: what seed finding, traversal and the database return for each entity is an input, or absent for an entity without a seed.
- JobWorker.WorkerLoop: the loop ends when the outside is quiet and the queue is empty, where the code polls on until it is stopped; a crash ends a call of it, and the next call starts from the state the crash leaves.
- JobWorker.Database.ClaimNext: among jobs equal in schedule and creation time the first of the table is taken; the database may take any.
