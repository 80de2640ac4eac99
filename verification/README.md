# Verification model of the ontology graph engine

The repository keeps a typed property graph in memory, under an ontology that
may change while the graph is live, and beside it a write-ahead ingester,
graph traversals, paged listings, a payload tier that evicts descriptions to
disk, a dense and a lexical index, and a document extractor driven by a
language model. This project models those parts and proves what they promise
to their callers.

`dafny verify dfyconfig.toml` checks everything.

## How the model is laid out

| files | what they hold |
|---|---|
| OntologySchema | the type lattice, its validators, the descendants cache, declarations |
| GraphState, StateLaws, OperationLaws | the graph as primary maps alone, every operation as a function on them, laws over runs of operations, and what each operation does field by field |
| Indexes, Consistency, OntologyGraph | the indexed engine (class `OntologyGraph`, module `Engine`), each method proved against the operation of GraphState |
| Listing, RelationListing, PageCache | paged listings, cursors, the page cache as an interleaved protocol |
| Reach, Traversal, Fairness, Growth, Levels, Expansion | hop distance, breadth-first search, shortest path, closure, capped expansion and what each of its levels does |
| IngestState, BatchLaws, SessionLaws, UpsertLaws, AbsorbLaws, Arrival, Ingest | the session of an ingest (class `Ingester`), its batches and its journal; batches against arrival |
| Recovery, RecoveryLaws | the journal replayed into a new graph, and when that gives the graph back |
| Deletion, Pruning, Idempotence, SilentRun, RunLedger, IngestRun | journaled deletion, prune, whole runs, runs repeated |
| PayloadTier, PayloadRuns, PayloadReads, PayloadSlots | payload eviction as an interleaved protocol, the exact conditions under which it is invisible to slots and to reads, and the methods that perform its steps |
| TopK, Vectors, Lexical, LexicalSearch | the row table with swap-remove, the postings, ranked search |
| Chunking, Extraction | the chunkers and the work queue around an arbitrary model |
| ExcelDate | serial day numbers to calendar dates |
| Text, Collections, Errors, Witnesses | lowercasing and trigrams, stock definitions, errors, concrete inputs for what fails |

Four ideas recur. The *view* of a session (`ConceptView`, `EdgeView`) is the
graph together with what is pending, so that batching can be compared with
arrival one record at a time. A run that fails because the store failed may
have lost what was pending (`NotLost` is false); every other clause is about
the remaining outcomes. `SameAnswers` compares two index structures by the
answer of every lookup, so that an absent bucket and an empty one are the same.
And a restart is `Recovery.Recovered`, the replay of the whole journal; it finds
the graph (`Restored`) when it gives the same concepts and the same edges in the
same order, and finds the ids too (`RestoredById`) when the relation ids agree.

## What does not hold

Each of these is proved: the exact condition under which the promise is kept,
and an input that misses it.

- Eviction is not invisible to writers that announce locations in any order. A
  location announced while an older write of the same id is being applied is
  overwritten by the older one. An announcement is orderly when, if the payload
  of the id is in memory, no apply of the id is under way and no location of it
  is stashed. The announcement of a new version leaves no way to a slot at an
  older record exactly when it is orderly (`PayloadRuns.OrderlyIsExact`); it
  leaves no way to a read of an older record exactly when it is orderly or not
  exposed (`PayloadReads.ReadsAreExact`, `PayloadReads.DisorderReadsAStaleVersion`).
  Exposed means that an apply of the id is under way, and that a location of the
  id is stashed or was taken from the stash, or an eviction of the last announced
  location waits anywhere on its way, or the new location is in the same
  partition and that has not sealed. The lock that serialises graph-mutating
  requests, crates/server/src/lib.rs:94-99, enforces more than order
  (`PayloadRuns.OneWriterIsOrderly`).
- A read of an evicted payload takes the location from the slot and then reads
  the source; the answer is that of a read in one step exactly when compaction
  has not deleted the partition in between, and otherwise there is none, although
  the concept is live and readable before and after (`PayloadTier.ReadAcross`,
  `PayloadReads.CompactionInsideARead`).
- Batched concepts are not always what concepts on arrival would be. With upsert
  the code at crates/io/src/ingest.rs:683-747 looks a name up in the graph, which
  does not see the batch, and its comment at lines 694-697 lets the last record of
  a batch win. Staging agrees with an upsert of the view exactly when no pending
  rename releases the name, or a disjoint one, and an upsert by name does not meet
  its name as that of a new pending concept, or arrival refuses the record as well
  (`Arrival.BatchingAgrees`). Otherwise the record lands on the concept that is
  being renamed, whose new name is lost (`Witnesses.RenameIsLost`), or is refused:
  a released name is still taken (`Witnesses.ReleasedNameRefused`), and a new name
  given twice is a duplicate (`Witnesses.TwiceIsDuplicate`).
- A restart does not always find the graph. The journal names relations by id, but
  a replayed relation keeps its id only while that is free, and the inverse of a
  symmetric edge takes the next one, which is not the one it had if the rest of
  its batch was prepared before it was applied. Every flush brings its edges back.
  It brings the ids back exactly when the relation with the newest id comes no
  later in the batch than the first of a symmetric type, or no id was given away
  that the journal does not know, or no type is symmetric
  (`Recovery.RelationsKeepIds`). Where the ids differ, a tombstone takes the right
  edge exactly when both graphs have the same edge under the id
  (`RecoveryLaws.TombstoneExactly`), and an update of a one-sided edge is right
  exactly when they have, or have two that say it already
  (`RecoveryLaws.MisledUpdate`). Deleting the second relation of a batch after a
  symmetric one deletes another edge on restart (`Witnesses.ShiftedIds`).
- Updates of relations can overtake the schema. Staging a concept and a full batch
  of updates flush the updates, crates/io/src/ingest.rs:688 and 837, without
  flushing a schema change that waits. Replayed under the older schema such an
  update is right exactly when both schemas agree on whether the edge has two
  sides, or the other side says the same already (`RecoveryLaws.UpdateExactly`,
  `Witnesses.EarlyUpdate`).
- So a whole ingest keeps the restart right if the journal names no relation by id
  after one of a symmetric type and the source declares no relation type
  (`IngestRun.IngestRecordsWith`); flush by flush the conditions are the exact
  ones above.
- A schema change that was accepted is not always accepted back. It is exactly
  when the old schema passes the validators itself and no live relation has a
  type that only the new schema declares (`IngestState.RollbackAccepted`,
  `Witnesses.RollbackRefused`). The ingester never meets the case
  (`SessionLaws.RolledBackOk`).
- Repeating a type declaration is not always a no-op. It is exactly when the
  declaration names no disjoint type, or no registered type had to be pulled
  into its list (`OntologySchema.RepeatedDeclaration`, `Witnesses.DeclarationRepeated`).
- A second run of the same source is not always silent. It is exactly when the
  graph that the first run leaves has all that the records say; and it has if the
  records name different things and no declaration stops a relation type from
  being symmetric (`IngestRun.IngestTwice`). A type turned over takes back what a
  relation said exactly when it stops being symmetric and only the reverse edge is
  there (`Witnesses.TurnedOver`); two runs in which the second adds a relation are
  `Witnesses.SecondRunSpeaks`, and a source of two descriptions of one thing is
  journaled by every run (`Witnesses.TwoSayings`).
- A piece the model cut off is not always halved, however long: exactly when it
  is under the minimum or blank on one side of the break nearest its middle
  (`Chunking.WhenUnsplittable`, `Chunking.TrailingBreak`).
- A model that is never cut off does not extract every document: exactly those
  that make at most 256 chunks (`Extraction.ExtractProposal`, `Witnesses.LongDocument`).
- `delete_concepts` fails half-way exactly when a live id is given twice, the
  journal then being ahead of the graph (`Deletion.DeleteConcepts`,
  `Witnesses.DeletedTwice`).

## Model

| member | source | states |
|---|---|---|
| OntologySchema.IsSubtype | crates/graph/src/schema.rs:513-531 | the cursor walk bounded by the number of types answers exactly the unbounded inheritance relation, cycles included |
| OntologySchema.ReachedSoon | crates/graph/src/schema.rs:513-531 | whatever a parent chain of any length reaches, it reaches within as many hops as there are types |
| OntologySchema.ValidateHierarchy | crates/graph/src/schema.rs:351-376 | accepted exactly when no type is its own proper ancestor; the type in the error sits on a chain that never ends |
| OntologySchema.WalkDescendants | crates/graph/src/schema.rs:312-345 | one depth-first walk lists exactly the known types that inherit from the given one, on cyclic graphs too |
| OntologySchema.Ontology.DescendantsOf | crates/graph/src/schema.rs:305-310 | served from the lazily filled cache, the answer is the name-ordered list of the known types that inherit from the ancestor, whatever was declared before |
| OntologySchema.NsOfType | crates/graph/src/schema.rs:392-406 | the bounded walk finds the domain declared nearest up the parent chain, or the default |
| OntologySchema.ValidateNamespaces | crates/graph/src/schema.rs:433-458 | accepted exactly when every declared domain is valid and no type leaves the domain of its parent |
| OntologySchema.ValidNsExactly | crates/graph/src/schema.rs:61-72 | a domain name is one to thirty-two lower-case letters, digits, underscores and hyphens, by code point, and not the reserved one |
| OntologySchema.SubtypesShareDomainAt | crates/graph/src/schema.rs:433-458 | once accepted, a type has the storage domain of every known ancestor, at any distance |
| OntologySchema.ValidateEdge | crates/graph/src/schema.rs:534-551 | accepted exactly when the relation type is known and both ends inherit from its domain and range; which of the two errors otherwise |
| OntologySchema.EdgeRouting | crates/graph/src/schema.rs:411-414 | every accepted edge of a relation type with known ends has its endpoints in the two domains that the type alone routes to |
| OntologySchema.AddKeepsDisjointSymmetric | crates/graph/src/schema.rs:192-214 | declaring a type keeps disjointness symmetric over the known types |
| OntologySchema.Ontology.MergeConceptType | crates/graph/src/schema.rs:225-258 | the merged declaration is stored, the cache stays exact, and `false` is returned exactly when the declaration changes nothing |
| OntologySchema.RepeatedDeclaration | crates/graph/src/schema.rs:225-258 | a declaration that changed the schema is a no-op when repeated exactly when it names no disjoint type or none had to be pulled in |
| OntologySchema.DeclarationKeeps | crates/graph/src/schema.rs:240-258 | a re-declaration keeps of the registered type whatever the declaration leaves out, field by field, and takes from it whatever it mentions |
| OntologySchema.DeclarationDisjoint | crates/graph/src/schema.rs:225-258 | a declaration that changes something leaves the type disjoint, of the other types, from exactly those it names (or else those it was) and the known types that name it; and every other known type as it was, but that it names the declared type now if that names it |
| OntologySchema.Ontology.AddRelationType | crates/graph/src/schema.rs:260-278 | accepted exactly when both ends are known types; then that one type is registered, else nothing changes |
| StateLaws.StepWellFormed | crates/graph/src/graph.rs:788-1703 | every operation keeps names unique, ids non-zero and below the watermarks, no edge dangling and every edge listed once |
| StateLaws.ConceptSchemaSafety | crates/graph/src/graph.rs:386-398 | over any interleaving of mutations and schema changes, a concept that stays live keeps its type, the type stays declared and its storage domain never moves |
| StateLaws.RelationSchemaSafety | crates/graph/src/graph.rs:608-697 | over any such run a relation that stays live keeps its type, and that type keeps its domain and range |
| StateLaws.IncidentIdsExact | crates/graph/src/graph.rs:1586-1600 | the incident ids of a concept are exactly its relations, each once, self-loops included |
| OperationLaws.UpsertedExactly | crates/graph/src/graph.rs:788-908 | refused exactly for contents the schema does not allow, a name taken, a change of type or an id out of range; accepted, exactly the record is there under its id or a new one, and nothing else moved |
| OperationLaws.UpdatedExactly | crates/graph/src/graph.rs:1475-1578 | each field is the patch's if the patch has it and the concept's otherwise; refused exactly for an unknown concept, a name given that is taken, or contents not allowed |
| OperationLaws.RemovedExactly | crates/graph/src/graph.rs:1605-1673 | exactly the concept and the edges that touch it leave, and the answer lists those edges |
| OperationLaws.RelatedExactly | crates/graph/src/graph.rs:1108-1277 | accepted exactly when permitted; then one edge more under its id or a new one and, for a symmetric type with two ends, the same edge the other way round under another |
| OperationLaws.InsertedExactly | crates/graph/src/graph.rs:1285-1322 | refused exactly for id zero, a taken id or a missing end; else one edge more and no inverse |
| OperationLaws.UnrelatedExactly | crates/graph/src/graph.rs:1676-1703 | exactly that edge leaves |
| OperationLaws.BetweenExactly | crates/graph/src/graph.rs:1397-1408 | the oldest edge that runs so, and nothing exactly when none does |
| OperationLaws.ReweightedExactly | crates/graph/src/graph.rs:1432-1464 | the edge named and the oldest edge of a symmetric type that runs back get the weight and properties; every other edge is as it was |
| OperationLaws.RepatchedExactly | crates/graph/src/graph.rs:1414-1473 | what a patch leaves out stays as the named edge has it, on both sides of it |
| OperationLaws.AcceptedExactly | crates/graph/src/graph.rs:608-697 | a schema is accepted exactly when it passes both validators, every concept keeps its type and domain, and every relation its type with its two ends |
| Indexes.Relist | crates/graph/src/graph.rs:836-898 | replacing the listing entries of the previous version leaves the sorted set, the type buckets and the trigram buckets exact for the new concepts |
| Indexes.Unlist | crates/graph/src/graph.rs:1605-1673 | dropping the entries of one concept leaves the three listings exact for the rest |
| Indexes.BuildListings | crates/graph/src/graph.rs:483-562 | the single pass that ends a bulk load builds the three listings exactly |
| Consistency.SameNameConsistent | crates/graph/src/graph.rs:1506-1566 | an update that keeps type and name may skip every index |
| Consistency.DegreeByAdjacency | crates/graph/src/graph.rs:1108-1177 | the typed adjacency answers whether a node already has an edge of a type |
| Consistency.BetweenByAdjacency | crates/graph/src/graph.rs:1397-1408 | the typed adjacency finds the same relation between two nodes as the edges in insertion order |
| Consistency.IndexDetermined | crates/graph/src/graph.rs:483-562 | outside bulk mode the primary maps determine the answer of every index lookup |
| Engine.OntologyGraph.FindByName | crates/graph/src/graph.rs:978-982 | the name index finds the concept of that type and lowercased name exactly when there is one |
| Engine.OntologyGraph.PrepareConcept | crates/graph/src/graph.rs:788-827 | verdict and id are those of the scan over the primary maps, and only the id counter moves |
| Engine.OntologyGraph.ApplyPreparedConcept | crates/graph/src/graph.rs:836-898 | the new state and result are those of the operation on primary maps, with every index exact, in bulk mode and not |
| Engine.OntologyGraph.UpsertConcept | crates/graph/src/graph.rs:905-908 | prepare then apply, as one operation on the primary maps, with every index exact |
| Engine.OntologyGraph.ApplyConceptUpdate | crates/graph/src/graph.rs:1506-1566 | as the operation on primary maps: a type change and a taken name are refused, a rename moves every index |
| Engine.OntologyGraph.UpdateConcept | crates/graph/src/graph.rs:1475-1578 | preview then apply, with every index exact |
| Engine.OntologyGraph.IncidentRelationIds | crates/graph/src/graph.rs:1586-1600 | read from the two adjacency lists, the cascade that removal would perform |
| Engine.OntologyGraph.RemoveConcept | crates/graph/src/graph.rs:1605-1673 | the concept and exactly its incident relations leave, with every index exact |
| Engine.OntologyGraph.CheckRelation | crates/graph/src/graph.rs:1108-1177 | the verdict and error of a scan of the primary maps, which `BatchLaws.RefusedExactly` gives constructor by constructor: unknown ends, unknown type, schema, id range, cardinality |
| Engine.OntologyGraph.ApplyPreparedRelation | crates/graph/src/graph.rs:1184-1268 | one edge and, for a symmetric type, its inverse under a fresh id, with all four adjacency indexes exact |
| Engine.OntologyGraph.AddRelation | crates/graph/src/graph.rs:1274-1277 | prepare then apply, with every index exact |
| Engine.OntologyGraph.InsertRelationExact | crates/graph/src/graph.rs:1285-1322 | the given id is kept, the watermark rises past it, nothing is materialised |
| Engine.OntologyGraph.RemoveRelation | crates/graph/src/graph.rs:1676-1703 | exactly that relation leaves, with every index exact |
| Engine.OntologyGraph.ApplyRelationUpdate | crates/graph/src/graph.rs:1432-1464 | weight and properties of the edge and of its symmetric mirror change, and nothing else |
| Engine.OntologyGraph.TypedNeighbours | crates/graph/src/graph.rs:1730-1798 | an edge is answered exactly when it is a live edge of a wanted type on the asked side of the node, or a live edge on the other side, of a type that a wanted one is declared the inverse of, turned round and renamed |
| GraphState.TypedEdgesExactly | crates/graph/src/graph.rs:1743-1760 | the same for one type, over the live edges alone |
| Engine.OntologyGraph.HasInstances | crates/graph/src/graph.rs:386-398 | whether a type has live instances, right in bulk mode too, where the bucket is stale |
| Engine.OntologyGraph.IdsOfType | crates/graph/src/graph.rs:2368-2400 | outside bulk mode exactly the concepts of one type, each once; in bulk mode only live ones |
| Engine.OntologyGraph.ExtendOntology | crates/graph/src/graph.rs:582-697 | the candidate goes live exactly when both validators pass and it orphans no live instance, moves no populated type to another domain and keeps the ends of populated relation types |
| Engine.OntologyGraph.ClearInstances | crates/graph/src/graph.rs:707-729 | the state is that of a new graph under the same schema, and every index is empty |
| Engine.OntologyGraph.BeginBulk | crates/graph/src/graph.rs:466-473 | only the call that switched the mode on owns the rebuild |
| Engine.OntologyGraph.EndBulk | crates/graph/src/graph.rs:483-562 | whatever happened during the load, every index is exact afterwards |
| Engine.BulkEqualsNormal | crates/graph/src/graph.rs:455-562 | any run of mutations inside a bulk load, then its end, leaves the same primary state and the same answer to every lookup as the same run in normal mode |
| Listing.MergeRuns | crates/graph/src/graph.rs:2314-2346 | the k-way merge over the buckets of the subtypes is sorted by name and id and holds every key of every run once |
| Listing.FastKeys | crates/graph/src/graph.rs:2211-2286 | the trigram intersection, filtered, sorted and entered at the cursor, is the ordered listing of all names that contain the needle |
| Listing.Consume | crates/graph/src/graph.rs:2289-2309 | one pass that ranks, skips, fills and may stop early cuts the requested page out of the filtered list, and counts it |
| Listing.ListConceptsPage | crates/graph/src/graph.rs:2188-2362 | whichever path serves it, the page is the slice at offset and limit of the one ordered listing of the matching concepts after the cursor |
| Listing.ListedInOrder | crates/graph/src/graph.rs:2145-2185 | that listing has every accepted concept once, by type unless it is of one type, then by name, then by id |
| Listing.CursorResumes | crates/graph/src/graph.rs:2163-2185 | listing after the key of row n gives exactly the rows past n |
| Listing.WalkConcepts | crates/graph/src/graph.rs:2145-2185 | following the cursor until it ends cuts the whole listing into consecutive pieces of `limit` rows |
| Listing.PiecesJoin | crates/graph/src/graph.rs:2163-2185 | the pieces join to the listing, so that each matching concept comes once, in order |
| Listing.PieceAt | crates/graph/src/graph.rs:2163-2185 | the page that the cursor gives i-th is the page at offset i times limit |
| RelationListing.ListsComplete | crates/graph/src/graph.rs:2490-2550 | each adjacency list that the planner may pick holds every match |
| RelationListing.ListRelationsPage | crates/graph/src/graph.rs:2480-2619 | whichever list the planner picks, the page is the one that filtering the id-ordered set gives |
| RelationListing.WalkRelations | crates/graph/src/graph.rs:2458-2477 | following the cursor until it ends cuts the listing of matching relations into consecutive pieces |
| PageCache.CacheIsCurrent | crates/graph/src/graph.rs:2097-2134 | over every interleaving of readers and writers, while no writer is between its index write and its bump, an entry stamped with the current generation is the uncached listing |
| PageCache.HitIsCurrent | crates/graph/src/graph.rs:2097-2134 | a hit by a reader that no writer overlapped serves the uncached listing |
| PageCache.ConceptPagesCurrent | crates/graph/src/graph.rs:2088-2135 | the same for the cache of concept pages and the listing of this model |
| PageCache.RelationPagesCurrent | crates/graph/src/graph.rs:2405-2453 | the same for the cache of relation pages |
| Reach.SearchComplete | crates/graph/src/traversal.rs:354-387 | a breadth-first search whose queue is empty has visited every node within the bound, no deeper than its distance |
| Traversal.Closure | crates/graph/src/traversal.rs:354-387 | exactly the nodes within the bound, once each, nearest first, without the seed, a step being a live edge of the type or of its declared inverse between the two; an unknown seed is an error |
| Traversal.ShortestPath | crates/graph/src/traversal.rs:125-203 | a walk over live edges of exactly the undirected hop distance, and `None` exactly when the distance exceeds the bound; which unknown end is reported |
| Fairness.StrongestOk | crates/graph/src/traversal.rs:288-306 | the sort on weight is a permutation, strongest first |
| Fairness.StrongestStable | crates/graph/src/traversal.rs:288-306 | equal weights keep adjacency order |
| Fairness.RanksAscend | crates/graph/src/traversal.rs:288-306 | no relation type gets its next edge in before every other type has had as many |
| Fairness.Reorder | crates/graph/src/traversal.rs:288-306 | the round robin is a permutation of the candidates, made of the rounds over the sorted buckets |
| Levels.RoundsAreFair | crates/graph/src/traversal.rs:288-306 | rounds over the sorted buckets are fair: each candidate once, descending in weight within its type, equal weights as gathered, and the types in turn |
| Levels.NoCrowding | crates/graph/src/traversal.rs:288-306 | in a fair order no type gets its next candidate in before every other type has had as many or has run out |
| Growth.AdmittedGrows | crates/graph/src/traversal.rs:308-339 | one admission keeps every guarantee of the expansion: nothing dangling, nothing repeated, every concept hanging on a chain of its depth, the caps |
| Growth.ChainExists | crates/graph/src/traversal.rs:206-348 | every kept concept is linked to a live seed by a chain of exactly its depth of emitted edges |
| Expansion.Expand | crates/graph/src/traversal.rs:206-348 | level by level, the candidates are exactly the adjacent edges of wanted types in adjacency order, considered in a fair order, each admitted unless a cap or a filter stops it, until the edge cap; every edge joins two kept concepts, nothing repeats, the caps hold, each concept hangs on a chain of its depth; with no cap reached the result is exactly the ball of the given radius, with true distances |
| BatchLaws.SameVerdict | crates/io/src/ingest.rs:749-781 | without a pending sibling the batch sees the refusal that one-at-a-time insertion would see |
| BatchLaws.FlushStep | crates/io/src/ingest.rs:618-632 | applying the first of a pending batch cannot fail, and applied and pending edges together stay what they were |
| BatchLaws.DurablePrefixReplays | crates/io/src/ingest.rs:596-615 | whatever prefix of an admitted concept batch became durable, replaying it on the graph as it was is accepted and gives what applying it gave |
| BatchLaws.RefusedExactly | crates/graph/src/graph.rs:1108-1177 | an edge is accepted exactly when its ends are live and of types that inherit from domain and range, ids are in range, no edge of a one-to-one, many-to-one or functional type leaves the same source, and none of a one-to-one or one-to-many type enters the same target; a cardinality error names the end that is taken |
| BatchLaws.RefusedAtTheLimit | crates/graph/src/graph.rs:1137-1163 | of the edges that pass the other checks, exactly those are refused that would break what the cardinality says of its edges |
| BatchLaws.AcceptedRespectsLimits | crates/graph/src/schema.rs:105-117 | an accepted relation keeps what each cardinality says: no two edges of a one-to-one, many-to-one or functional type share a source, no two of a one-to-one or one-to-many type a target, unless the type is symmetric |
| BatchLaws.DueInOrder | crates/io/src/ingest.rs:749-781 | each pending relation is still acceptable after the edges of the graph and those pending before it, so its journal record replays |
| IngestState.RollbackAccepted | crates/io/src/ingest.rs:520-533 | an accepted change is accepted back exactly when the old schema passes the validators and no live relation has a type only the new one declares |
| SessionLaws.RolledBackOk | crates/io/src/ingest.rs:520-533 | in every state a session reaches, the rollback is accepted and restores the last journaled schema |
| SessionLaws.NoConflictCompatible | crates/io/src/ingest.rs:647-681 | the pending-conflict checks make a concept compatible with every member of the batch |
| SessionLaws.PendVerdict | crates/io/src/ingest.rs:749-781 | with no pending sibling, preparing against the graph gives the verdict of inserting into the view |
| Ingest.Ingester.CheckPendingConflicts | crates/io/src/ingest.rs:647-681 | refused exactly when a pending concept holds the key and the record does not name its id, or a pending concept has the name in a disjoint type; which of the two errors |
| Ingest.Ingester.SettleConcepts | crates/io/src/ingest.rs:596-615 | journaled as a whole or not at all; then the concepts of the graph are those of the view and nothing else moved |
| Ingest.Ingester.FlushRelations | crates/io/src/ingest.rs:618-632 | on success every relation of the batch is journaled, in order, and the edges of the graph are exactly those of the view; on failure graph and journal are as they were; a restart finds the edges still, and finds their ids exactly when the batch keeps them |
| Ingest.Ingester.FlushUpdates | crates/io/src/ingest.rs:573-591 | on success every update of the batch is journaled, in order, and only weights and properties move; a restart that finds the ids still does, unless the journaled schema disagrees on which edges have two sides |
| Ingest.Ingester.Flush | crates/io/src/ingest.rs:566-570 | on success nothing is pending, the schema is journaled and the graph is the view |
| Ingest.Ingester.StageConcept | crates/io/src/ingest.rs:683-747 | the concept taken has the type and name of the record; merging, its properties over those it had and its description unless that is empty, and otherwise just its own; found by name on an idle graph, it is left unstaged exactly when it has all that already; the answer, id and view are those of `Staging` and, unhindered, of an upsert of the view on arrival; refused, the view is as it was |
| IngestState.UpsertMeans | crates/io/src/ingest.rs:698-720 | what an upsert does to the concepts, said of each property, the description and the name |
| AbsorbLaws.AbsorbedMeans | crates/io/src/ingest.rs:712-730 | the graph has all that a concept record says exactly when the concept of its name would not change |
| Arrival.BatchingAgrees | crates/io/src/ingest.rs:683-747 | staging answers as an upsert of the view would, with the same id and concepts, exactly when no pending rename releases the name or a disjoint one and an upsert by name does not meet its name as a new pending concept's, or arrival refuses the record as well |
| Arrival.RedirectedLands | crates/io/src/ingest.rs:690-740 | a record whose name a pending rename has released lands on the renamed concept, where arrival would make a new one |
| Arrival.HinderedRefuses | crates/io/src/ingest.rs:647-740 | in the other cases that differ, staging refuses the record |
| Ingest.Ingester.AddRelation | crates/io/src/ingest.rs:749-781 | refused exactly when adding to the view would be, and by the same error; accepted, the view grows by the edge and its materialised inverse |
| Ingest.Ingester.PutRelation | crates/io/src/ingest.rs:787-840 | with upsert, an edge of the view is refreshed and gains no twin, in either orientation when symmetric; otherwise it is added under the rules of an addition |
| Ingest.Ingester.PutNamed | crates/io/src/ingest.rs:874-911 | put off exactly when an end is found neither in the graph nor in the batch; the link put is between the concepts of those names, and is recorded for the prune |
| Ingest.Ingester.DeclareConceptType | crates/io/src/ingest.rs:912-937 | merged after what was validated under the old schema is settled; a declaration that changes nothing costs no barrier and no record |
| Ingest.Ingester.DeclareRelationType | crates/io/src/ingest.rs:987-1013 | put off exactly while an end is unknown; one already registered the same costs nothing |
| Ingest.Ingester.ReplaceOntology | crates/io/src/ingest.rs:845-864 | validated, then durable, then live; refused, the live schema is unchanged |
| Ingest.Ingester.RollbackSchema | crates/io/src/ingest.rs:520-533 | never refused; the live schema is the last journaled one again and no instance moved |
| Ingest.Ingester.PruneConcepts | crates/io/src/ingest.rs:368-393 | refused exactly when one declared type would lose more than its share, then nothing changes; done, exactly the concepts of declared types that were not staged are gone with their edges |
| Ingest.Ingester.PruneLinks | crates/io/src/ingest.rs:395-442 | no link of a declared type that leaves a staged concept is left unless emitted; without declared inverses nothing else is taken; a restart that finds the ids still does |
| Ingest.Ingester.Prune | crates/io/src/ingest.rs:368-442 | concepts then links; a refused prune leaves graph and journal as they were |
| Deletion.RemovedAllExact | crates/io/src/ingest.rs:1136-1169 | removing distinct live concepts one by one removes exactly them and the edges around them |
| Deletion.DeletionExact | crates/io/src/ingest.rs:1136-1169 | the journal names every deleted concept and every edge that goes along exactly once, and nothing else |
| Deletion.DeleteConcepts | crates/io/src/ingest.rs:1136-1169 | on success the journal has grown by exactly the cascade that left the graph, with the counts reported; a store failure changes nothing; given a live id twice, the whole cascade is journaled and exactly the targets before the repeated one are gone |
| Recovery.ConceptsRecover | crates/storage/src/memory.rs:72-74 | an admitted batch is journaled so that the replay accepts every record and has the same concepts |
| Recovery.RelationsRecover | crates/storage/src/memory.rs:75-77 | a batch that passed its checks is journaled so that the replay accepts every record and adds the same edges, inverses included; the ids come back exactly when the batch keeps them |
| Recovery.RelationsKeepIds | crates/graph/src/graph.rs:1184-1268 | the ids of a flushed batch and of its inverses come back exactly when the relation with the newest id comes no later than the first of a symmetric type, or no id was given away that the journal does not know |
| Recovery.UpdatesRecover | crates/storage/src/memory.rs:81-93 | journaled updates replay to the same weights and properties on both sides of every edge, where the ids came back and the schemas agree on which edges have two sides |
| Recovery.DeletionsRecover | crates/storage/src/memory.rs:108-114 | a journaled cascade replays to the same graph: the concept takes its edges along, and the tombstones that follow find nothing left |
| Recovery.SchemaRecovers | crates/storage/src/memory.rs:66-71 | a journaled schema is accepted again by the replay, whose instances are the same |
| RecoveryLaws.FreshJournal | crates/storage/src/memory.rs:53-62 | the journal of a new graph, which names its schema, gives that graph back |
| RecoveryLaws.TombstoneExactly | crates/storage/src/memory.rs:112-114 | a replayed tombstone takes the same edge exactly when both graphs have the same edge under the id |
| RecoveryLaws.MisledUpdate | crates/storage/src/memory.rs:81-93 | a replayed update of an edge with one side is right exactly when both graphs have the same edge under the id, or two that say it already; an unknown id is added and never right |
| RecoveryLaws.UpdateExactly | crates/io/src/ingest.rs:683-688 | under another schema a replayed update is right exactly when the schemas agree on whether the edge has another side, or that side says the same already |
| Pruning.CollectStaleConcepts | crates/io/src/ingest.rs:368-389 | exactly the concepts of the declared types not staged, or refused exactly when some declared type is over its share |
| Pruning.GuardedExactly | crates/io/src/ingest.rs:368-389 | a type is over its share exactly when it has twenty live concepts or more and more than the given share of them was not staged |
| Pruning.CollectStaleLinks | crates/io/src/ingest.rs:395-430 | every link of a declared type leaving a staged concept that was not emitted is listed once, with its inverse; without declared inverses nothing else is |
| Idempotence.NowSaid | crates/io/src/ingest.rs:683-937 | a record that was applied leaves the view saying what the record says |
| Idempotence.OtherStays | crates/io/src/ingest.rs:683-937 | whatever another record about another thing said is still said after one more record |
| Idempotence.GoingOn | crates/io/src/ingest.rs:843-1105 | one record of a repeatable source taken keeps all that the earlier ones said |
| RunLedger.LoggedOn | crates/io/src/ingest.rs:324-351 | after one more record, every concept taken is live in the view under its staged id, with the name of its record, unless some record names that id outright, and then with the name of the last record staged under it; and every link emitted is an edge of the view, one way round or the other |
| IngestRun.Apply | crates/io/src/ingest.rs:843-1105 | each kind of record does to the view what its kind promises; put off exactly the relations and declarations whose ends are unknown |
| IngestRun.FirstPass | crates/io/src/ingest.rs:324-333 | every record once, in order; what is kept for later is named relations and relation types, and the declared types are those of the source |
| IngestRun.RetryPass | crates/io/src/ingest.rs:334-345 | a relation still missing an end is an error, a declaration whose ends never came is dropped |
| IngestRun.IngestRecordsWith | crates/io/src/ingest.rs:234-254 | whatever happens the live schema is the last journaled one and the journal holds the concepts of the graph; a restart finds the graph, relations included, if it did before, the journal names no relation by id after one of a symmetric type and the source declares no relation type; an upsert of plain records without a prune journals nothing exactly when the graph had all that they say; after a prune the concepts of the declared types are exactly those staged and their links exactly those emitted, and a refused prune leaves graph and journal as they were after draining |
| IngestRun.IngestTwice | crates/io/src/ingest.rs:234-254 | with upsert and no prune, for any source of concepts without ids, named relations, relation types and concept types without disjoint types, the second run is done, journals nothing and leaves the graph as it is exactly when the graph after the first run has all that the records say; it has, if the records are about different things and none stops a relation type from being symmetric |
| SilentRun.SilentOn | crates/io/src/ingest.rs:324-345 | while the journal has not grown and nothing waits, the graph is as it was at the start and had all that the records taken so far say |
| IngestRun.IngestRelations | crates/io/src/ingest.rs:749-781 | batched relations are refused at the same record and by the same error as one-at-a-time insertion, and if none is refused the graph ends with the same edges, inverses included |
| IngestRun.LimitsHold | crates/graph/src/schema.rs:105-117 | under a fixed schema no run of relations makes two edges of a one-to-one, many-to-one or functional type share a source, or two of a one-to-one or one-to-many type a target, symmetric types aside |
| Witnesses.RollbackRefused | crates/io/src/ingest.rs:520-533 | a concrete state in which an accepted schema is not accepted back |
| Witnesses.TurnedOver | crates/io/src/ingest.rs:787-840 | a declaration that turns a type over takes back what a relation said exactly when the type stops being symmetric and only the reverse edge is there |
| Witnesses.SecondRunSpeaks | crates/io/src/ingest.rs:234-254 | two whole runs of a concrete source: both are done, and the second journals the edge that the first found reversed |
| Witnesses.TwoSayings | crates/io/src/ingest.rs:683-747 | no graph ever has both of two descriptions of one thing, so that source is never silent |
| Witnesses.RenameIsLost | crates/io/src/ingest.rs:683-747 | a concrete batch in which a record lands on the concept being renamed and the new name is lost |
| Witnesses.ReleasedNameRefused | crates/io/src/ingest.rs:683-747 | a concrete batch in which a name that a pending rename releases is refused |
| Witnesses.TwiceIsDuplicate | crates/io/src/ingest.rs:647-681 | a concrete batch in which a new name given twice is refused, where arrival would update |
| Witnesses.DeclarationRepeated | crates/graph/src/schema.rs:225-258 | a concrete declaration that changes the schema twice |
| Witnesses.DeletedTwice | crates/io/src/ingest.rs:1136-1169 | a concrete deletion after which the graph has a concept that the journal has deleted |
| Witnesses.ShiftedIds | crates/storage/src/memory.rs:64-123 | a concrete batch of a symmetric relation and another, and a deletion of the second that takes another edge on restart |
| Witnesses.EarlyUpdate | crates/io/src/ingest.rs:683-688 | a concrete update journaled ahead of the declaration that makes its type symmetric, which a restart applies to one side only |
| Witnesses.LongDocument | crates/rag/src/extract.rs:66-138 | a concrete document on which a model that always answers is given up on |
| PayloadTier.EvictionInvisible | crates/graph/src/graph.rs:910-943 | in every orderly interleaving a read in one step answers the last applied version or, while a write is in flight, the one about to land |
| PayloadTier.ReadAcross | crates/graph/src/graph.rs:910-943 | a read in two steps, with anything in between, gives what one step would have given when it began, unless the partition is deleted under it: then there is no answer |
| PayloadTier.EvictedIsSealed | crates/graph/src/graph.rs:1035-1061 | an evicted slot always has a location in a sealed partition that can be read |
| PayloadTier.LateRead | crates/graph/src/graph.rs:926-943 | whatever happens in between, a location read late gives the same record exactly when its partition has not been deleted, and otherwise nothing |
| PayloadRuns.OneWriterIsOrderly | crates/server/src/lib.rs:94-99 | under the lock that serialises graph-mutating requests every announcement is orderly |
| PayloadRuns.EvictionInvisibleToOneWriter | crates/graph/src/graph.rs:1006-1061 | so under that lock evicted and resident payloads are indistinguishable to a read, whatever happens between its two steps, but for a partition deleted under it |
| PayloadRuns.OrderlyIsExact | crates/graph/src/graph.rs:1006-1030 | the announcement of a new version is orderly exactly when no orderly continuation leaves the slot at an older location |
| PayloadReads.ReadsAreExact | crates/graph/src/graph.rs:1006-1030 | the announcement of a new version has an orderly continuation that ends in a read of a version neither applied nor landing exactly when it is disorderly and exposed |
| PayloadReads.ExposedIsRead | crates/graph/src/graph.rs:1006-1061 | the continuation: the applies, the eviction that waits or is still to be pushed, and the seal |
| PayloadReads.DisorderReadsAStaleVersion | crates/graph/src/graph.rs:1006-1030 | a concrete run from the start in which that happens |
| PayloadReads.CompactionInsideARead | crates/graph/src/graph.rs:910-943 | a concrete run in which compaction deletes the partition between the two steps of a read |
| PayloadSlots.Slots.SetLocResident | crates/graph/src/graph.rs:1006-1030 | the method, undisturbed, is a run of the protocol that begins with the announcement, its two locks taken one after the other |
| PayloadSlots.Slots.Apply | crates/graph/src/graph.rs:836-898 | the payload side of an apply is the read, take and insert steps of the protocol, with the push that may follow |
| PayloadSlots.Slots.PartitionSealed | crates/graph/src/graph.rs:1035-1061 | a run of seal and drop steps; the number returned is how many payloads left memory |
| PayloadSlots.Slots.Get | crates/graph/src/graph.rs:910-943 | the read of the protocol |
| TopK.SplitScan | crates/index/src/vector.rs:158-188 | however a scan is split, the best of the per-part heads are the best of all |
| TopK.TopHits | crates/index/src/embed.rs:80-96 | the entries kept have the best scores, best first, and are entries of the input |
| Vectors.Rows.Upsert | crates/index/src/vector.rs:48-69 | the table maps the id to the new row and every other id as before; ids, positions and flat data stay in step |
| Vectors.Rows.Remove | crates/index/src/vector.rs:71-88 | the swap-remove takes exactly that id out of the table |
| Vectors.Rows.Search | crates/index/src/vector.rs:158-188 | the hits are rows of the table, each at most once and with its own score, and their scores are those of one scan over all rows, for any number of threads |
| Vectors.DotIsLinear | crates/index/src/vector.rs:158-188 | the score is linear in the row |
| Vectors.DotOfAxis | crates/index/src/vector.rs:158-188 | and a row that is an axis scores the query's value on it, so that the score is the dot product |
| Vectors.Perform | crates/index/src/vector.rs:43-97 | after any sequence of inserts and removals the table is that of the live documents |
| Vectors.SameScores | crates/index/src/vector.rs:158-188 | whatever the history, a search gives the scores that a fresh build over the same documents gives |
| Lexical.Unpost | crates/index/src/lexical.rs:48-59 | scrubbing the lists of the document's own terms leaves all postings exact for the other documents |
| Lexical.Intern | crates/index/src/lexical.rs:61-69 | a known term keeps its number, a new one gets a number of its own, and all postings stay exact |
| Lexical.LexicalIndex.Insert | crates/index/src/lexical.rs:71-84 | the postings, lengths and counts are exactly those of the documents with this one put in place of its old version |
| Lexical.LexicalIndex.Remove | crates/index/src/lexical.rs:116-122 | and exactly those of the documents without this one |
| LexicalSearch.Search | crates/index/src/lexical.rs:125-157 | the hits are the best of the scores that the documents themselves give, best first |
| LexicalSearch.HistoryForgotten | crates/index/src/lexical.rs:125-157 | a long-lived index answers as a fresh build of its live documents does |
| Chunking.SplitOversize | crates/rag/src/extract.rs:360-392 | the pieces fit, are packed greedily, and spell the paragraph |
| Chunking.ChunkText | crates/rag/src/extract.rs:333-358 | a document that fits is one chunk; otherwise the chunks fit the budget, no two neighbours would fit together, and they spell the document |
| Chunking.WhiteExactly | crates/rag/src/extract.rs:164-194 | what the chunkers trim is the white space of `char::is_whitespace`, by code point |
| Chunking.Utf8Exactly | crates/rag/src/extract.rs:164-194 | lengths in bytes, by which the middle is found, are those of section 3 of RFC 3629 |
| Chunking.HalvesShrink | crates/rag/src/extract.rs:164-194 | both halves are non-empty and strictly shorter, and together spell the piece |
| Chunking.WhenUnsplittable | crates/rag/src/extract.rs:164-194 | exactly when a piece cannot be halved |
| Chunking.TrailingBreak | crates/rag/src/extract.rs:164-194 | a single line that ends in a line break is never halved, however long |
| Extraction.LooksLineStructured | crates/rag/src/extract.rs:141-153 | decides whether the text is made of records, by the lines of `str::lines` |
| Extraction.FencesIgnored | crates/rag/src/extract.rs:156-160 | a fenced answer, whatever its language tag and whatever follows the closing fence, is judged truncated exactly when the answer inside is |
| Extraction.OpenFenceIgnored | crates/rag/src/extract.rs:553-563 | and so is one whose fence was never closed |
| Extraction.TruncatedExactly | crates/rag/src/extract.rs:156-160 | an answer is whole exactly when, its fence aside, a closing brace has nothing behind it but white space around at most one run of ticks |
| Extraction.MergeItems | crates/rag/src/extract.rs:568-621 | one item per key, the higher confidence winning and the earlier of two as confident |
| Extraction.MergedOnce | crates/rag/src/extract.rs:568-621 | the merged proposal has each type name once and each concept once, its kind and its name but for case and surrounding white space, at least as confident as any that was proposed |
| Extraction.ExtractProposal | crates/rag/src/extract.rs:66-138 | for every model: at most 256 calls, every chunk and piece within the budget chosen for the text; extracted, the merged pieces spell the document exactly once in order and the proposal is the merge of their answers; otherwise the error says why; a model that is never cut off is answered exactly when the chunks number at most 256 |
| ExcelDate.FormulaIsDate | crates/io/src/xlsx.rs:232-245 | the arithmetic finds the one era, year and day of the year that make up the day count, before the epoch too; that the date they give is the calendar's is what the four rows below say |
| ExcelDate.AlwaysValid | crates/io/src/xlsx.rs:232-245 | every serial gives a valid date under the leap rule of section 3.2.1 of ISO 8601:2004 |
| ExcelDate.Epoch | crates/io/src/xlsx.rs:235 | serial 25569 is 1970-01-01 |
| ExcelDate.SerialSuccessor | crates/io/src/xlsx.rs:232-245 | the next serial is the next calendar day, across months, leap days, centuries and eras |
| ExcelDate.SerialOrder | crates/io/src/xlsx.rs:232-245 | so the conversion keeps order and no two serials share a date |

## Left out

- The on-disk segment store, its compaction and backup: the store is an append-only journal whose appends succeed or fail as a whole, and a map from locations to records; compaction appears only as relocation and retirement of partitions.
- The HTTP server, command line, web interface, audit log, and the clients of language and embedding models: the model of an extraction is an arbitrary function from a call number and a piece to an answer.
- Readers and mappers of file formats, JSON parsing, `export_graph` and sinks.
- Rules, actions, rule types, action types and fragment types, in the graph, in the ingester and in `merge_into`; relation types and relations of `merge_into`, which only append.
- Properties are values compared for equality.
- Weights are integers, and scores are reals: no rounding, no NaN, and `total_cmp` is the order of the numbers.
- Ids and counters are unbounded; `fits_storage` is a bound on concept ids only.
- Lowercasing is one function of the character, without context rules; `Text.LowerChar` folds the Latin (ASCII and Latin-1), Greek and Cyrillic capitals and the dotted capital I, and leaves all other characters alone.
- Iteration over a hash map or set happens in name order where the order can be seen (the types pulled into a disjointness list), and in arbitrary order where it cannot.
- Texts of error messages, statistics and the memo of type limits.
- The adjacency lists are modelled by one global insertion order, of which each list is a selection.
- Sorting is modelled by enumerating a set in order or by insertion; the merge over buckets computes each run before merging.
- A schema in a record registers every type under its own name, as any schema built by the declaration methods does.
- Ingest.Ingester.Prune: requires that no bulk load is going on, since the bucket of a type is then stale by design; the store's own replay is the only bulk loader.
- IngestRun.IngestTwice: sources with concept records that carry explicit ids, relation records between ids, whole schemas or declarations with disjoint types are not covered; the first two are applied again by design, and for the last see `OntologySchema.RepeatedDeclaration`.
- IngestRun.IngestRecordsWith: that a restart finds the graph is stated under a sufficient condition on the journal and the source; the exact conditions are those of the single flushes, updates and tombstones.
- Recovery.Recovered: stands for the replay of `crates/storage/src/memory.rs`, in normal mode; that its bulk mode ends in the same state is `Engine.BulkEqualsNormal`. Records of rules and actions, of exact relations and of concept updates, which an ingest never journals, are not replayed.
- Symmetric pairing after a relation is removed, and cardinality of materialised inverses, which the code leaves unchecked.
- PageCache.HitIsCurrent: while a writer is at work the page a reader computes is arbitrary, and nothing is said of what it serves.
- PayloadRuns.OrderlyIsExact: exactness is about the location of the slot; for what a read answers see `PayloadReads.ReadsAreExact`.
- PayloadTier.ReadAcross: that a partition is deleted only once no reader is left in it is not enforced by the code, and not by the model.
- Excel times of day, the phantom leap day of 1900, and the text of the date.
