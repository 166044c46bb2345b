# AINL core: a verified model

A Dafny model of the stateful core of the AINL crates and of the JavaScript SDK's stream reader, with
proofs about whole runs. `dafny verify dfyconfig.toml` checks all of it.

| component | Dafny modules |
|---|---|
| graph store: tables, statements, validation, snapshots, full-text shadow table | `GraphModel`, `GraphStore`, `GraphIntegrity`, `GraphValidation`, `GraphSnapshot`, `FtsIndex`, `RowTimes` |
| graph searches `lineage` and `walk_from` | `Traversal` |
| turn runtime: turns, extraction cadence, persona cache, restarts | `TurnModel`, `TurnRuntime`, `TurnRuns`, `TurnRecords`, `ExtractionCadence`, `PersonaCache` |
| prompt compressor and context compiler | `Compression`, `ProseCompression`, `ContextCompiler` |
| persona detectors, moving-average engine, extraction pass | `PassInput`, `PersonaSignals`, `PassEmissions`, `EpisodeTags`, `NodeSignals`, `Evolution`, `Recurrence`, `PersonaRow`, `ExtractorTask`, `ExtractionPass`, `PassOutcome`, `PassRuns` |
| trajectories, clusters, procedure artifacts, execution plans, artifact store | `Contracts`, `Trajectories`, `ProcedureLearning`, `ProcedureStore` |
| improvement-proposal ledger | `Ledger` |
| server-sent-event reader | `SseReader` |
| shared | `Wrappers`, `Bounds`, `Collections`, `Text` |

How it is built. A table is a map (the full-text table, which has no key, is a sequence), and the value of
all tables together is `GraphModel.Db`. Every object that the source changes in place is a class whose
methods change its fields step by step; each method is proved equal to a function on values, and the
theorems about runs speak about those functions. `f32` scores are `real`. Saturating and wrapping counters
are written out. Unordered scans (SQL without a total `ORDER BY`, hash sets and maps) are enumerations in
an unspecified order, so what is proved holds for every order.

Assumptions. Encoding a node, artifact or envelope as JSON and decoding it gives the same value back, except
that decoding a node trims its project id (`GraphModel.Decoded`). SHA-256, UUID version 5, the topic tagger,
the full-text matcher, the embedder and the summarizer are function parameters about which nothing is
assumed. Random ids are new when they are minted.

## Where the code and its promises part

* `validate_and_record` is documented as never flipping a rejected proposal to accepted
  (crates/ainl-improvement-proposals/src/ledger.rs:126). The statement has no such condition: the next
  validation decides (`Ledger.RevalidationDecides`, `Ledger.RejectionIsNotFinal`). An adopted proposal can
  become rejected and stays adopted (`Ledger.AdoptedCanBeRejected`).
* `write_node` is several statements without a transaction. When an embedded edge fails its foreign key, the
  node row is already replaced and the full-text row is not (`FtsIndex.WriteKeepsSyncIff`,
  `FtsIndex.FailedWriteLosesSync`).
* A patch dispatch fails this way exactly when the patch is runnable and its stored payload embeds an edge to
  a missing node (`TurnRuns.DispatchFailsIff`). It is then reported as skipped with its fitness unchanged,
  although the row holds the raised fitness unless that was already one (`TurnRuns.FailedDispatchStillStores`);
  one ordinary write leads there (`TurnRuns.FailedDispatchIsReachable`).
* Tagging an episode rewrites its row, and with the row goes what hangs on it. The trajectory detail rows
  survive exactly when there are none or no tag is new (`EpisodeTags.TaggingKeepsDetailsIff`,
  `EpisodeTags.TaggingLosesDetails`). The edges survive exactly when no tag is new or every edge at the
  episode, incoming or outgoing, is one its payload embeds (`EpisodeTags.TaggingKeepsEdgesIff`); the
  `EMIT_TO` edge that a turn writes is not (`EpisodeTags.TaggingLosesEmittedEdge`).
* Every pass reads every stored episode again, so each stored correction is ingested once per pass
  (`PassRuns.CorrectionsAreIngestedEveryPass`), and the tag that a pass writes makes an unsuccessful episode
  speak through its tools and outcome from the next pass on (`PassRuns.ProcessedAfterPassIff`,
  `PassRuns.CorrectionMakesEpisodeSpeak`).
* If the state write fails in a turn whose pass rewrote the persona, a restart serves the older text
  (`PersonaCache.TurnStaysCoherentIff`, `PersonaCache.UnsavedPassServesStalePersona`).
* When the 64-bit turn counter wraps, extraction stops for good: the last extraction lies less than an
  interval below 2^64, and the saturating difference never reaches the interval again
  (`ExtractionCadence.ExtractionOnEveryNthRecordedTurn`, `ExtractionCadence.NoExtractionAfterWrap`,
  `ExtractionCadence.WrappedMultipleIsSkipped`). The saturating episode counter likewise silences the
  brevity detector (`PersonaSignals.SaturationSilencesBrevity`, `PersonaSignals.SaturatedRequestGetsNothing`).
* `validate_graph` cannot see an edge both of whose endpoints are missing
  (`GraphValidation.LostEdgesGoUnreported`).
* A reuse outcome is recorded through an empty search, which does not see a tool-using artifact of fitness
  zero. On a store with one row per artifact such an artifact never recovers in runs of reuse records alone;
  an upsert can still raise it (`ProcedureStore.RecordSucceedsIff`, `ProcedureStore.FailuresSpend`,
  `ProcedureStore.SpentArtifactIsNotFound`).
* Two spellings of one axis in a persona row make the evolved score depend on hash-map order
  (`NodeSignals.PriorOrderIrrelevantIff`, `NodeSignals.TwoSpellingsDisagree`);
  the row that the task itself writes never does (`PersonaRow.EvolvedPriorsAreOrderFree`).
* A second failure patch gives a plan with a step that waits for itself; a plan can be run exactly when its
  step ids differ (`ProcedureLearning.TwicePatchedCannotRun`, `ProcedureLearning.PlanRunsIff`).

## Model

| member | source | states |
|---|---|---|
| GraphStore.SqliteGraphStore.WriteNode | crates/ainl-memory/src/store.rs:373-418 | statement by statement: the replaced row takes its incident edges and trajectory rows with it, embedded edges go in until the first foreign-key error, the full-text row only after all of them |
| GraphStore.SqliteGraphStore.WriteNodeWithEdges | crates/ainl-memory/src/store.rs:857-878 | targets are looked up first, then one transaction: on any error the store is as before |
| GraphStore.SqliteGraphStore.PersistEdge | crates/ainl-memory/src/store.rs:306-327 | upsert by (from, to, label), refused when an endpoint has no row |
| GraphStore.SqliteGraphStore.InsertGraphEdge | crates/ainl-memory/src/store.rs:726-766 | upsert of weight and metadata under the same foreign keys |
| GraphStore.SqliteGraphStore.InsertGraphEdgeChecked | crates/ainl-memory/src/store.rs:731-750 | names the missing source before the missing target, else upserts |
| GraphStore.SqliteGraphStore.SyncAllNodesFts | crates/ainl-memory/src/store.rs:288-304 | old full-text rows of the node go, one new row comes; a blank agent is left alone |
| GraphStore.SqliteGraphStore.InsertTrajectoryDetail | crates/ainl-memory/src/store.rs:1111-1143 | stored only when the episode has a row |
| GraphStore.SqliteGraphStore.DeleteTrajectoryDetailsBefore | crates/ainl-memory/src/store.rs:1211-1227 | removes exactly the agent's older rows and returns their number; a blank agent is an error |
| GraphStore.SqliteGraphStore.TryInsertNodeIgnore | crates/ainl-memory/src/store.rs:420-455 | an existing row wins and nothing else happens |
| GraphStore.SqliteGraphStore.TryInsertEdgeIgnore | crates/ainl-memory/src/store.rs:457-475 | a duplicate is skipped, a foreign-key violation is an error |
| GraphStore.SqliteGraphStore.ImportGraph | crates/ainl-memory/src/store.rs:1067-1108 | one transaction over nodes then edges, with or without foreign keys, rolled back on failure |
| GraphStore.SqliteGraphStore.Migrate | crates/ainl-memory/src/store.rs:146-208 | the rebuilt edge table keeps the rows whose endpoints exist; nodes, trajectory rows and index are kept |
| GraphIntegrity.RunKeepsIntact | crates/ainl-memory/src/store.rs:306-418 | in every run of store operations without repair import, whichever of them fail, each edge endpoint and each trajectory episode is an existing row |
| GraphIntegrity.MigrationIsIntact | crates/ainl-memory/src/store.rs:146-208 | a migrated store is intact iff its trajectory rows were; an edge is lost iff an endpoint was missing |
| GraphIntegrity.RepairIntactIffStrictAccepts | crates/ainl-memory/src/store.rs:1067-1108 | repair import leaves an intact store intact iff strict import would have accepted the snapshot |
| GraphIntegrity.WriteNodeSucceedsIff | crates/ainl-memory/src/store.rs:373-418 | succeeds iff every embedded target exists or is the node itself |
| GraphIntegrity.CheckedWriteExact | crates/ainl-memory/src/store.rs:857-878 | succeeds iff every target existed before; then equals the plain write, else changes nothing and names a missing target |
| GraphIntegrity.RewriteKeepsOnlyEmbeddedEdges | crates/ainl-memory/src/store.rs:373-418 | after rewriting a node its incident edges are exactly the embedded ones, its trajectory rows are gone, all else is as before |
| GraphIntegrity.PersistLinksEdges | crates/ainl-memory/src/store.rs:373-418 | embedded edges add one default row per link, overwriting weight and metadata, and touch no other edge |
| GraphIntegrity.ImportEdgesExact | crates/ainl-memory/src/store.rs:457-475 | edge import succeeds iff foreign keys are off or every edge is a duplicate or resolves; it only adds listed edges |
| RowTimes.RowTimesAreExact | crates/ainl-memory/src/store.rs:222-230 | in every run, imports included, a row's time is its own field for an episode, a state row, a trajectory or a failure, and for any other row the clock of the operation that last wrote it; its project column is the trimmed project |
| RowTimes.RunKeepsEpisodesTimed | crates/ainl-memory/src/store.rs:373-388 | so in every run from an empty store each episode row is timed by its episode, however often tags rewrote it |
| GraphValidation.ValidateGraph | crates/ainl-memory/src/store.rs:887-979 | on any store: dangling, boundary and orphan items exactly, each once; edge count = internal + boundary + dangling; valid iff nothing dangles |
| GraphValidation.ValidForAllIff | crates/ainl-memory/src/store.rs:887-979 | all agents validate iff no edge has exactly one endpoint |
| GraphValidation.LostEdgesGoUnreported | crates/ainl-memory/src/store.rs:887-979 | a repair import into an empty store makes an edge without endpoints, and every report stays clean |
| GraphValidation.PreTurnGateNeverRejects | crates/ainl-runtime/src/runtime.rs:407-420 | after any run without repair import every agent's report is clean |
| GraphSnapshot.ExportGraph | crates/ainl-memory/src/store.rs:1015-1047 | exactly the agent's decoded nodes and the edges among them, each once |
| GraphSnapshot.StrictImportAcceptsIff | crates/ainl-memory/src/store.rs:1067-1108 | accepted iff the version is known and each edge is stored already or joins existing or imported nodes |
| GraphSnapshot.ImportIsAtomicAndAdditive | crates/ainl-memory/src/store.rs:1067-1108 | a failed import changes nothing, a successful one changes no existing row |
| GraphSnapshot.ExportIsAlwaysImportable | crates/ainl-memory/src/store.rs:1015-1108 | an export of any store is accepted by strict import into any store |
| GraphSnapshot.ImportIsIdempotent | crates/ainl-memory/src/store.rs:420-475 | importing again, in either mode, succeeds and changes nothing |
| GraphSnapshot.ExportRoundTrips | crates/ainl-memory/src/store.rs:1015-1108 | export, import into a store without that agent, export again: the same nodes and edges |
| FtsIndex.WriteKeepsSyncIff | crates/ainl-memory/src/store.rs:373-418 | a write keeps index and node table in agreement iff every embedded target resolves or the payload is unchanged |
| FtsIndex.FailedWriteLosesSync | crates/ainl-memory/src/store.rs:373-418 | a write that fails on an embedded edge leaves a row the index does not know |
| FtsIndex.RunKeepsSync | crates/ainl-memory/src/store.rs:288-455 | over runs with real agents and resolving plain writes, one index row per node with its current payload, agent and project |
| FtsIndex.JoinIsScan | crates/ainl-memory/src/store.rs:1297-1358 | in agreement, the joined index rows are the hits of a direct scan of the node table, each once |
| FtsIndex.SearchAllNodes | crates/ainl-memory/src/store.rs:1297-1358 | in agreement, the search gives the newest hits on the node table, at most 1 to 200 of them; where episode rows carry their own times, the episodes in it come with nonincreasing times; blank agent or empty query give nothing |
| Traversal.Lineage | crates/ainl-memory/src/query.rs:569-604 | on any graph: each existing node other than the start at distance 1 to 20 along the two lineage labels, once, in nondecreasing distance |
| Traversal.WalkFrom | crates/ainl-memory/src/query.rs:30-68 | on any graph: exactly the existing nodes at label distance below the depth, once, in nondecreasing distance |
| Traversal.BallIsPaths | crates/ainl-memory/src/query.rs:569-604 | the level sets of the searches are the nodes reachable by a path of at most that length |
| TurnRuntime.AinlRuntime.constructor | crates/ainl-runtime/src/runtime.rs:81-130 | counters and cached text come from a newest stored state row, or start from zero when there is none |
| TurnRuntime.ReadRuntimeState | crates/ainl-memory/src/store.rs:808-837 | nothing for an empty agent id; else a state row of the agent with the largest timestamp, or nothing if it has none |
| TurnRuntime.AinlRuntime.RunTurn | crates/ainl-runtime/src/runtime.rs:367-776 | one turn, step by step, equals the turn function: gates, cache, dispatch, step limit, recording, cadence, state write; the theorems of `TurnRuns` and `TurnRecords` say what that is |
| TurnRuntime.AinlRuntime.DispatchPatch | crates/ainl-runtime/src/runtime.rs:894-1088 | skip reasons in order; otherwise fitness 0.2 + 0.8 times the old one is stored |
| TurnRuntime.AinlRuntime.RecordEpisode | crates/ainl-runtime/src/runtime.rs:512-597 | episode, emit edges, trajectory node, its edge and its detail row, stopping where the source stops |
| TurnRecords.RecordedTables | crates/ainl-runtime/src/runtime.rs:512-597 | from new ids: the episode row with the turn's time and body and no tag, an `EMIT_TO` edge exactly for each target that exists, the trajectory node, its `trajectory_of` edge to the episode and its detail row; no other row, edge or detail row changes |
| TurnRecords.NothingRecorded | crates/ainl-runtime/src/runtime.rs:512-530 | without an episode id nothing is written |
| TurnRecords.TurnStoresItsRecord | crates/ainl-runtime/src/runtime.rs:512-741 | after a recorded turn without a pass the store holds that episode and those edges |
| TurnRecords.ActivePatchesExactly | crates/ainl-memory/src/query.rs:706-724 | the patches offered are exactly the scanned procedural rows of the agent that are not retired |
| TurnRecords.DispatchCounts | crates/ainl-runtime/src/runtime.rs:860-1088 | the dispatched count is the number of patches whose reads are bound, stored and free of links to missing rows |
| TurnRecords.DispatchRaises | crates/ainl-runtime/src/runtime.rs:1061-1088 | the stored fitness of every patch that may run ends at 0.2 + 0.8 times what it was, one half if it had none, whatever is reported; no other node row changes |
| TurnRuns.TurnMeetsSpec | crates/ainl-runtime/src/runtime.rs:367-776 | which inputs are recorded, extract and run the pass; rejected and step-limited turns change neither counter nor saved state; a recorded one advances by one, overwrites the persona rows as its pass says, clears the cache after a pass and saves what memory holds |
| TurnRuns.GateIsValidation | crates/ainl-runtime/src/runtime.rs:407-420 | the gate passes iff the validation report is valid |
| TurnRuns.GateNeverRejectsInRuns | crates/ainl-runtime/src/runtime.rs:407-420 | over every interleaving of turns and restarts the gate rejects no turn |
| ExtractionCadence.ExtractionOnMultiples | crates/ainl-runtime/src/runtime.rs:599-687 | in every run, whichever state writes fail, a recorded turn extracts iff its number is a multiple and a whole interval past the last extraction can still be counted |
| ExtractionCadence.ExtractionOnEveryNthRecordedTurn | crates/ainl-runtime/src/runtime.rs:599-741 | with restarts after saved turns only, in runs of any length: the k-th recorded turn extracts iff k is a multiple below 2^64, so on n, 2n, 3n and no others, and never from the wrap on |
| ExtractionCadence.NoExtractionAfterWrap | crates/ainl-runtime/src/runtime.rs:599-603 | once the next multiple lies beyond the counter no turn of any later run extracts, unless a restart brings back older counters |
| ExtractionCadence.WrappedMultipleIsSkipped | crates/ainl-runtime/src/runtime.rs:599-603 | a run from an empty database reaches the wrap, and turn number 5 of interval 5 after it does not extract |
| PersonaCache.TurnStaysCoherentIff | crates/ainl-runtime/src/runtime.rs:629-741 | a turn keeps cache and saved text right iff it runs no pass, or saves its state, or no text was saved, or the rows as the pass overwrites them still compile to the saved text |
| PersonaCache.PersonaNeverStale | crates/ainl-runtime/src/runtime.rs:427-442 | over every interleaving of turns and restarts whose passes are saved, and every scan order, each turn's persona compiles exactly the rows stored at its start |
| PersonaCache.CompilationIsEveryLine | crates/ainl-runtime/src/runtime.rs:1161-1178 | a compilation is the line of every persona row of the agent, each once; it is absent iff there is none |
| PersonaCache.UnsavedPassServesStalePersona | crates/ainl-runtime/src/runtime.rs:714-741 | in a run from a fresh database, a pass whose state write fails lets a restart serve the text of a row that is gone |
| TurnRuns.DispatchFailsIff | crates/ainl-runtime/src/runtime.rs:894-1088 | reported as not persisted iff runnable and the stored payload embeds an edge to a missing node; dispatched iff runnable, stored and it embeds none |
| TurnRuns.FailedDispatchStillStores | crates/ainl-runtime/src/runtime.rs:1061-1073 | a dispatch reported as not persisted has stored the new fitness, equal to the old one iff that was one, and dropped incoming edges |
| TurnRuns.FailedDispatchIsReachable | crates/ainl-runtime/src/runtime.rs:1061-1073 | one ordinary write and one dispatch: reported as not persisted, and the row holds 0.6 |
| Compression.SplitFences | crates/ainl-compression/src/lib.rs:351-370 | the loop yields the blocks of the recursive splitter |
| Compression.SplitIsLossless | crates/ainl-compression/src/lib.rs:351-370 | the blocks concatenate back to the input |
| Compression.SplitExactly | crates/ainl-compression/src/lib.rs:351-370 | the splitting is the only list of blocks that concatenate to the text such that prose runs up to the next fence, code from a fence to the next one, and only the last block may be open |
| Compression.Compress | crates/ainl-compression/src/lib.rs:336-411 | passthrough, fence split, shrinking prose budget; `Compression.CompressExactly` says which text that is |
| Compression.CompressedText | crates/ainl-compression/src/lib.rs:336-411 | the result never has a larger token estimate than the input |
| Compression.CompressExactly | crates/ainl-compression/src/lib.rs:336-411 | off, short texts and texts that would not shrink come back as they are; any other comes back as its trimmed blocks, code verbatim and prose compressed to what is left of 55 or 35 percent of the input, at least a quarter, less what the code takes |
| Compression.PlainTextCompresses | crates/ainl-compression/src/lib.rs:336-411 | without a fence, what comes back is what the prose compressor makes of the text at 55 percent, if that is smaller |
| Compression.TokensOfAscii | crates/ainl-compression/src/lib.rs:245-252 | a quarter of the bytes and one |
| Compression.JoinParasExactly | crates/ainl-compression/src/lib.rs:386 | the parts in order, an empty line between two |
| Compression.ClosedFencesSurvive | crates/ainl-compression/src/lib.rs:351-411 | whatever the prose compressor does, every closed fence occurs verbatim and in order in the output |
| ProseCompression.SelectSentences | crates/ainl-compression/src/lib.rs:523-535 | the loop with its early exit selects what the loop without it selects |
| ProseCompression.SelectionIsSound | crates/ainl-compression/src/lib.rs:470-535 | must-keep sentences always stay; if any other stays the selection is within budget; no dropped sentence would still fit |
| ProseCompression.ChoiceIsGreedy | crates/ainl-compression/src/lib.rs:523-535 | best first, a sentence is kept iff it must stay or fits in what those before it left |
| ProseCompression.CollapseSpaces | crates/ainl-compression/src/lib.rs:547-550 | the loop ends with exactly one space for each run of spaces |
| ContextCompiler.Metrics.RecordSegment | crates/ainl-context-compiler/src/metrics.rs:68-91 | one row appended; the three totals stay the saturating sums and their difference, and the savings percentage their share, between 0 and 100 |
| ContextCompiler.TotalsAreExact | crates/ainl-context-compiler/src/metrics.rs:68-91 | if no row grew, nothing saturates: saved is original minus compressed |
| ContextCompiler.PercentageExactly | crates/ainl-context-compiler/src/metrics.rs:84-91 | the savings percentage times the original is a hundred times what was saved |
| ContextCompiler.RankIsPermutation | crates/ainl-context-compiler/src/orchestrator.rs:139-204 | with or without the embedder the ranking lists every segment once |
| ContextCompiler.BestFirst | crates/ainl-context-compiler/src/orchestrator.rs:139-204 | unpinned segments compete best first: by similarity with an embedding, then by score, then in input order |
| ContextCompiler.Compose | crates/ainl-context-compiler/src/orchestrator.rs:116-362 | whatever the budget, every system prompt, user prompt, tool definition and recent enough turn is in the output verbatim and in input order; every other segment competes, best first, and is there compressed iff its tokens fit in what is left; one recall; a metrics row per segment; the summarizer gets the dropped older turns |
| ContextCompiler.ComposeExactly | crates/ainl-context-compiler/src/orchestrator.rs:116-362 | every composition is described by where each output segment comes from, who competed in which order, and what was left of the budget before each |
| ContextCompiler.VerbatimSegments | crates/ainl-context-compiler/src/segment.rs:64-68 | the protected kinds occur verbatim in any composition |
| ContextCompiler.FlexibleBudgetExactly | crates/ainl-context-compiler/src/budget.rs:64-93 | budget and the three truncated reserves add up to the window, or the budget is zero |
| ContextCompiler.FormByKind | crates/ainl-context-compiler/src/orchestrator.rs:243-262 | pinned kinds keep their content, tool results are compressed aggressively, all others in balance, each to its share |
| ContextCompiler.PromptTextExactly | crates/ainl-context-compiler/src/summarizer.rs:95-110 | each section that is not blank as a heading and its trimmed content, an empty line between two |
| ContextCompiler.ComposeRespectsBudget | crates/ainl-context-compiler/src/orchestrator.rs:235-284 | spent plus left over is the flexible budget, and no dropped segment's compressed form fits the leftover |
| ContextCompiler.ComposeAccountsForEverySegment | crates/ainl-context-compiler/src/orchestrator.rs:215-284 | one metrics row per input segment, none reporting growth; dropped older turns in rank order, exactly |
| ContextCompiler.ComposeKeepsOrder | crates/ainl-context-compiler/src/orchestrator.rs:215-320 | without the recall the output is an in-order subsequence, pinned segments verbatim, others differing in content only |
| ContextCompiler.RecallPrecedesTurns | crates/ainl-context-compiler/src/orchestrator.rs:322-342 | the recall precedes every turn, only system and memory segments precede it, and removing it gives the rest back |
| PersonaSignals.ExtractorState.Observe | crates/ainl-graph-extractor/src/persona_signals.rs:274-363 | one episode through the brevity and formality detectors |
| PersonaSignals.ExtractorState.DomainEmergence | crates/ainl-graph-extractor/src/persona_signals.rs:169-220 | whatever order clusters are visited in, each decides for itself and one signal per firing cluster comes out |
| PersonaSignals.ExtractorState.ExtractPassCollect | crates/ainl-graph-extractor/src/persona_signals.rs:249-375 | the agent's episodes oldest first, then its clusters: detectors, signals and tags of a pass as functions of the state before it |
| PassInput.ChronologicalIsExact | crates/ainl-graph-extractor/src/persona_signals.rs:256-264 | a pass processes exactly the agent's episodes, oldest first, ties in scan order |
| PersonaSignals.PassSignalsAreStreamSignals | crates/ainl-graph-extractor/src/persona_signals.rs:249-375 | the signals of a later pass are those of one uninterrupted episode stream |
| PersonaSignals.BrevitySignalsAreSpaced | crates/ainl-graph-extractor/src/persona_signals.rs:298-328 | in every stream two brevity signals are three episodes apart; an implicit one needs two implicit shapes in a row |
| PersonaSignals.BrevityExactly | crates/ainl-graph-extractor/src/persona_signals.rs:298-328 | on every stream: quiet for three counted episodes, then explicit request, else two implicit shapes in a row |
| PersonaSignals.QuietMeansTwoEpisodes | crates/ainl-graph-extractor/src/persona_signals.rs:104-110 | until the counter saturates, quiet means no signal on the two episodes before |
| PersonaSignals.SaturationSilencesBrevity | crates/ainl-graph-extractor/src/persona_signals.rs:104-110 | once the counter has saturated a brevity signal is the last one ever |
| PersonaSignals.SaturatedRequestGetsNothing | crates/ainl-graph-extractor/src/persona_signals.rs:104-110 | on a stream that asks every time, episode 2^32 - 1 signals and the one three later gets nothing |
| PersonaSignals.FirstEpisodeIsNeverImplicit | crates/ainl-graph-extractor/src/persona_signals.rs:312-328 | the first episode of a stream never signals implicitly |
| PersonaSignals.FormalityConsumesThree | crates/ainl-graph-extractor/src/persona_signals.rs:330-363 | a formality signal ends a run of exactly three non-empty messages of its direction with no signal inside |
| PersonaSignals.FormalityExactly | crates/ainl-graph-extractor/src/persona_signals.rs:330-363 | a direction is signalled exactly where its third non-empty message ends a run without another direction and without an earlier signal |
| PersonaSignals.FormalityRunsAreDisjoint | crates/ainl-graph-extractor/src/persona_signals.rs:330-363 | two signals consume disjoint runs |
| PersonaSignals.DomainExactly | crates/ainl-graph-extractor/src/persona_signals.rs:189-218 | in every run a cluster fires iff two of its facts came back three times or one six times, and it has cooled down, which until the counter saturates means it did not fire in the pass before |
| PersonaSignals.DomainSignalsAreSpaced | crates/ainl-graph-extractor/src/persona_signals.rs:189-218 | in every run a cluster's signals are two passes apart |
| PassInput.GroupClusters | crates/ainl-graph-extractor/src/persona_signals.rs:161-188 | every keyed fact of the agent is in its own cluster and no other, no cluster is empty |
| PassInput.ClusterExactly | crates/ainl-graph-extractor/src/persona_signals.rs:150-156 | a topic's cluster holds the counts of the agent's facts with that topic, trimmed and in lower case; blank topics have none |
| PassEmissions.PassEmits | crates/ainl-graph-extractor/src/persona_signals.rs:249-375 | from any state over any episodes each kind of signal, with its reward and weight, comes as often as the detectors say so; tool signals come from episodes not fully signalled before; there are no others |
| PassEmissions.PendingExactly | crates/ainl-graph-extractor/src/persona_signals.rs:249-375 | the pending tags stand, in order, for the episodes of which the detectors say anything, and say exactly that |
| PassEmissions.DomainsEmit | crates/ainl-graph-extractor/src/persona_signals.rs:189-218 | one signal per firing cluster |
| PassEmissions.FormalEndsAboveInformal | crates/ainl-graph-extractor/src/persona_signals.rs:330-363 | from any state in range three formal messages leave their axis 0.065 above what three informal ones leave |
| EpisodeTags.AppendEpisodeTags | crates/ainl-graph-extractor/src/persona_signals.rs:112-143 | a stored episode that lacks a tag is rewritten with its old tags and then the new ones in first-occurrence order; nothing else is written |
| EpisodeTags.FlushEpisodePatternTags | crates/ainl-graph-extractor/src/persona_signals.rs:378-386 | the pending tags in order, stopping at the first error |
| EpisodeTags.FlushExactly | crates/ainl-graph-extractor/src/persona_signals.rs:378-386 | each entry is written from the state the one before left, up to and with the first that fails |
| EpisodeTags.NewTagsInOrder | crates/ainl-graph-extractor/src/persona_signals.rs:130-137 | a tag is new iff the episode lacks it, and new tags come in the order in which they first occur |
| EpisodeTags.TaggingIsIdempotent | crates/ainl-graph-extractor/src/persona_signals.rs:112-143 | from distinct tags: every tag once, and no tag is new the second time |
| EpisodeTags.TaggingTouchesOneRow | crates/ainl-graph-extractor/src/persona_signals.rs:112-143 | tagging changes one node row and of it only the tags, and keeps references intact |
| EpisodeTags.TaggingTwiceIsOnce | crates/ainl-graph-extractor/src/persona_signals.rs:112-143 | tagging a second time writes nothing, whatever the first write reported |
| EpisodeTags.TaggingKeepsDetailsIff | crates/ainl-graph-extractor/src/persona_signals.rs:112-143 | the episode's trajectory rows survive iff there are none or no tag is new |
| EpisodeTags.TaggingKeepsEdgesIff | crates/ainl-graph-extractor/src/persona_signals.rs:112-143 | all edges survive iff no tag is new or every edge at the episode is embedded in its payload before any lost link; with weight and metadata iff those are also the default ones |
| EpisodeTags.EmbeddedWhenResolved | crates/ainl-graph-extractor/src/persona_signals.rs:112-143 | if all links resolve, embedded means: a link of the payload |
| EpisodeTags.TaggingLosesEmittedEdge | crates/ainl-runtime/src/runtime.rs:541-545 | an episode loses its outgoing emit edge to its first tag |
| EpisodeTags.TaggingLosesDetails | crates/ainl-graph-extractor/src/persona_signals.rs:112-143 | an episode with a detail row loses it to its first tag |
| Evolution.EvolutionEngine.IngestSignals | crates/ainl-persona/src/engine.rs:40-52 | the loop folds every signal into its axis, counts noticeable moves and keeps scores in range |
| Evolution.EvolutionEngine.CorrectionTick | crates/ainl-persona/src/engine.rs:89-93 | a correction equals ingesting one full-weight signal |
| Evolution.AxesAreIndependent | crates/ainl-persona/src/engine.rs:40-52 | an axis holds the fold of its own signals; interleaving with other axes does not matter |
| Evolution.AppliedIsPerAxis | crates/ainl-persona/src/engine.rs:40-52 | the applied count is the sum of what each axis alone would count |
| Evolution.IngestInParts | crates/ainl-persona/src/engine.rs:40-52 | cutting a stream into several ingests changes neither scores nor the total applied |
| Evolution.OneSignalExactly | crates/ainl-persona/src/axes.rs:77-84 | one signal moves its own axis a fifth of the way to reward times weight and no other, counts one sample, and is noticed iff it moves it by more than a thousandth |
| Evolution.DefaultsExactly | crates/ainl-persona/src/axes.rs:87-93 | a new engine knows all five axes, each half way up |
| Evolution.ScoresStayInRange | crates/ainl-persona/src/axes.rs:77-84 | scores stay in [0, 1] and sample counts within 32 bits |
| Evolution.GapDecays | crates/ainl-persona/src/axes.rs:77-84 | two states fed the same n signals differ by 0.8^n times their gap |
| Evolution.EnginesConverge | crates/ainl-persona/src/axes.rs:77-84 | the same for two engines, n counting the axis's own signals |
| Evolution.SteadySignalsApproachTheirTarget | crates/ainl-persona/src/axes.rs:77-84 | with one target the distance to it shrinks by exactly 0.8^n |
| Evolution.OrderIrrelevantIff | crates/ainl-persona/src/engine.rs:40-52 | every order of a batch gives the same axes iff signals of one axis have one target |
| NodeSignals.ExtractEpisodic | crates/ainl-persona/src/signals.rs:217-300 | vitals, hints, tools of the hash set in some order, outcome, duration; nothing for an unprocessable episode |
| NodeSignals.EpisodeSays | crates/ainl-persona/src/signals.rs:217-300 | an episode that succeeded or has hints says what vitals, hints, tools and outcome say; another nothing |
| NodeSignals.VitalsExactly | crates/ainl-persona/src/signals.rs:103-215 | which signals come from gate, phase kind and trust, each at most once |
| NodeSignals.HintExactly | crates/ainl-persona/src/signals.rs:302-313 | a hint speaks iff it is an axis name, a colon and a reward |
| NodeSignals.HintsExactly | crates/ainl-persona/src/signals.rs:223-228 | hints speak in order, each for itself |
| NodeSignals.ParseAxisExactly | crates/ainl-persona/src/axes.rs:37-46 | both spellings of an axis name it, space around them or not |
| NodeSignals.SpeaksExactly | crates/ainl-persona/src/signals.rs:65-79 | which tool names speak for which axis |
| NodeSignals.ToolsExactly | crates/ainl-persona/src/signals.rs:229-264 | each axis hears one signal per tool that speaks for it and nothing else of tools |
| NodeSignals.OutcomeExactly | crates/ainl-persona/src/signals.rs:266-300 | which signals come from outcome and duration |
| NodeSignals.ToolOrderIsIrrelevant | crates/ainl-persona/src/signals.rs:229-264 | every order of the tool set gives the same axes and applied count, wherever the episode stands |
| NodeSignals.PriorOrderIrrelevantIff | crates/ainl-persona/src/signals.rs:423-437 | the walk over a persona row's scores is order-free iff no two names of one axis disagree |
| NodeSignals.TwoSpellingsDisagree | crates/ainl-persona/src/axes.rs:37-46 | a row with both spellings of an axis fails that condition |
| Recurrence.UpdateSemanticRecurrence | crates/ainl-graph-extractor/src/recurrence.rs:9-41 | facts in scan order, each referenced one rewritten, stopping at the first failed write; the count is zero after an error |
| Recurrence.UpdateIsExact | crates/ainl-graph-extractor/src/recurrence.rs:9-41 | a phase that succeeds raises exactly the referenced facts by one step, counts them and touches no other row |
| Recurrence.UpdateRaises | crates/ainl-graph-extractor/src/recurrence.rs:9-41 | in terms of the rows: references since the last snapshot, one step up to 32 bits, the snapshot taken |
| Recurrence.SecondUpdateIsIdle | crates/ainl-graph-extractor/src/recurrence.rs:9-41 | without new references a second phase updates nothing, in any order |
| PersonaRow.FindEvolutionRow | crates/ainl-persona/src/persona_node.rs:8-39 | the evolution row with the highest cycle, the last scanned of equals |
| PersonaRow.LatestIsLast | crates/ainl-persona/src/persona_node.rs:8-39 | of rows with one cycle the last one scanned is taken |
| PersonaRow.WriteEvolvedPersona | crates/ainl-persona/src/persona_node.rs:41-87 | reads, patches and writes that row, or a new one |
| PersonaRow.EvolvedRowIsTheOne | crates/ainl-persona/src/persona_node.rs:41-87 | from at most one evolution row to exactly one, holding the axes, one cycle further, no other row touched |
| PersonaRow.EvolvedExactly | crates/ainl-persona/src/persona_node.rs:41-87 | each axis under its name, marked as evolved, one cycle more |
| PersonaRow.FirstEvolvedRow | crates/ainl-persona/src/persona_node.rs:41-87 | without such a row a new one is made in its first cycle |
| PersonaRow.DominantAxesAreExact | crates/ainl-persona/src/persona_node.rs:68-77 | exactly the axes above 0.65 are named, strongest first |
| PersonaRow.DominantAxesDescend | crates/ainl-persona/src/persona_node.rs:68-77 | of two named axes the first is at least as strong |
| PersonaRow.AxisNameRoundTrip | crates/ainl-persona/src/axes.rs:27-46 | reading a written axis name gives the axis |
| PersonaRow.EvolvedPriorsAreOrderFree | crates/ainl-persona/src/signals.rs:423-437 | the priors of a row the task wrote do not depend on the walk over its map |
| ExtractionPass.GraphExtractorTask.RunPass | crates/ainl-graph-extractor/src/extractor.rs:97-192 | recurrence, graph signals, detectors, tag flush, ingest and persona write on the store, each phase whatever the earlier ones reported, one outcome slot per writing phase |
| ExtractionPass.PassWritesItsKinds | crates/ainl-graph-extractor/src/extractor.rs:97-192 | a pass is a list of writes of facts, episodes and persona rows, none under the id of a row of another kind |
| ExtractionPass.PassIsPlausible | crates/ainl-runtime/src/runtime.rs:629-631 | a pass on a sound store never writes the state row, which is what the theorems about turns assume of it |
| PassOutcome.RowsAreRead | crates/ainl-graph-extractor/src/extractor.rs:97-192 | which signals, episode and fact each scanned row adds |
| PassOutcome.PassIngests | crates/ainl-graph-extractor/src/extractor.rs:97-192 | a pass ingests, once each, what it reads off the nodes, what the detectors say of the agent's episodes, and one signal per firing topic |
| PassOutcome.PassWritesAxesIff | crates/ainl-graph-extractor/src/extractor.rs:161-181 | the persona row is written iff there were signals, a raised fact, or a persona row before |
| PassOutcome.PassStoresAxes | crates/ainl-graph-extractor/src/extractor.rs:161-181 | then there is one evolution row, and it holds the engine's score of every axis under its name |
| PassRuns.CorrectionsAreIngestedEveryPass | crates/ainl-graph-extractor/src/persona_signals.rs:249-300 | in every run of passes each pass ingests, beside what it reads off the nodes, one correction per stored episode of the agent that corrects |
| PassRuns.ProcessedAfterPassIff | crates/ainl-persona/src/signals.rs:81-90 | after a pass whose tags are stored an episode speaks iff it did before or the pass tagged it |
| PassRuns.ProcessedExactly | crates/ainl-persona/src/signals.rs:81-90 | an episode speaks iff it carries a tag or ended in success; otherwise it yields no signal |
| PassRuns.CorrectionMakesEpisodeSpeak | crates/ainl-persona/src/signals.rs:81-90 | in every run an episode that corrects speaks from the first pass on whose tags are stored, for good |
| ExtractorTask.PassesShareOneState | crates/ainl-graph-extractor/src/extractor.rs:97-192 | over any number of passes: axes are one ingest of all merged signals and in range, detectors are those of one stream |
| Trajectories.Group | crates/ainl-trajectory/src/lib.rs:120-141 | the map built by the loop holds each fingerprint's records in arrival order |
| Trajectories.ClusterExperiences | crates/ainl-trajectory/src/lib.rs:116-164 | one cluster per fingerprint, and exactly the enriched groups that pass the policy |
| Trajectories.GroupsPartition | crates/ainl-trajectory/src/lib.rs:120-141 | each long enough record is in the group of its fingerprint as often as given, and in no other |
| Trajectories.CanonicalTextExactly | crates/ainl-trajectory/src/lib.rs:94-109 | project, source and the operation of each step, in order |
| Trajectories.DefaultSelects | crates/ainl-trajectory/src/lib.rs:82-164 | a group survives the default policy iff all of it succeeded, it took at most ten minutes on average and its mean trust is at least 0.55 |
| Trajectories.TotalsAddUp | crates/ainl-trajectory/src/lib.rs:166-189 | durations, successes and fitness changes add up over the records |
| Trajectories.TrustsAddUp | crates/ainl-trajectory/src/lib.rs:166-189 | the trust values are those of the steps, in order, where there is one |
| Trajectories.BundleExactly | crates/ainl-trajectory/src/lib.rs:192-236 | the bundle of a group: count, first events, episodes, and fitness the mean of successes and fitness changes |
| Trajectories.WrappedBundle | crates/ainl-trajectory/src/lib.rs:192-236 | the count is 32 bits wide; where it wraps to nothing the fitness is zero |
| Trajectories.FullRatioIff | crates/ainl-trajectory/src/lib.rs:166-189 | a ratio of one iff every trajectory and every step succeeded |
| Trajectories.DefaultClustersSucceed | crates/ainl-trajectory/src/lib.rs:82-91 | under the default policy every surviving cluster is all-success |
| ProcedureLearning.DistillProcedure | crates/ainl-procedure-learning/src/lib.rs:81-172 | errors in order; else steps, tools, adapters and failures of the events |
| ProcedureLearning.DistilledExactly | crates/ainl-procedure-learning/src/lib.rs:105-172 | one step per event named by its place, the adapters other than plain tools, a line per failed event with an error |
| ProcedureLearning.PaddedExactly | crates/ainl-procedure-learning/src/lib.rs:122 | the number in decimal, at least two digits |
| ProcedureLearning.StepIdsDiffer | crates/ainl-procedure-learning/src/lib.rs:122 | zero-padded step ids are injective for any number of steps |
| ProcedureLearning.StepToolsRequiredIff | crates/ainl-procedure-learning/src/lib.rs:108-131 | all step tools are required iff every failed operation also succeeded somewhere |
| ProcedureLearning.LearnedArtifactIsSound | crates/ainl-procedure-learning/src/lib.rs:81-172 | from any trajectories under default policies: no known failures, step tools required, fitness in [0.7, 1], distinct step ids, and a plan that is one chain only the listed order runs |
| ProcedureLearning.DistillsIff | crates/ainl-procedure-learning/src/lib.rs:85-103 | a default cluster is distilled iff seen at least three times with mean fitness change of at least -0.3 |
| ProcedureLearning.PatchKeepsIdsIff | crates/ainl-procedure-learning/src/lib.rs:216-253 | a failure patch keeps ids distinct iff they were and there was no earlier one |
| ProcedureLearning.PatchedExactly | crates/ainl-procedure-learning/src/lib.rs:216-253 | a check, the failure, a warning and its id are added, and the artifact is a candidate again |
| ProcedureLearning.RenderExecutionPlan | crates/ainl-procedure-learning/src/lib.rs:256-311 | every step is run as its kind says and waits for the one before it |
| ProcedureLearning.PlanHasOneSchedule | crates/ainl-procedure-learning/src/lib.rs:256-311 | with distinct ids the listed order runs the plan and no other does |
| ProcedureLearning.PlanRunsIff | crates/ainl-procedure-learning/src/lib.rs:256-311 | some order runs a plan iff its step ids are pairwise different |
| ProcedureLearning.PatchedPlanRunsIff | crates/ainl-procedure-learning/src/lib.rs:216-253 | after a failure patch some order runs the plan iff the ids were distinct and there was no earlier such patch |
| ProcedureLearning.TwicePatchedCannotRun | crates/ainl-procedure-learning/src/lib.rs:216-253 | after two failure patches no order runs the plan |
| ProcedureStore.GraphMemory.UpsertProcedureArtifact | crates/ainl-memory/src/lib.rs:276-356 | rewrites some row of that agent and id, or writes a new one |
| ProcedureStore.UpsertedExactly | crates/ainl-memory/src/lib.rs:310-356 | the artifact and the columns copied from it over the picked row, whose other content stays, or over a new row |
| ProcedureStore.UpsertKeepsShelvedIff | crates/ainl-memory/src/lib.rs:276-356 | an upsert succeeds and leaves one row per artifact iff at most one row answers to the id and that row can be written back |
| ProcedureStore.UpsertIsMapUpdate | crates/ainl-memory/src/lib.rs:276-356 | such an upsert is one update of the map from agent and id to artifact, also beside patterns and patches without artifact |
| ProcedureStore.UpsertsRefineMap | crates/ainl-memory/src/lib.rs:276-356 | in every upsert run, whichever rows are picked, one row per agent and id holding the last value |
| ProcedureStore.UpsertsFromPlainStore | crates/ainl-memory/src/lib.rs:276-356 | the same from any store without artifacts |
| ProcedureStore.Search | crates/ainl-memory/src/lib.rs:378-415 | every hit once, best score first, cut to the limit |
| ProcedureStore.ScoreExactly | crates/ainl-memory/src/lib.rs:107-143 | words found, tools at hand and fitness, 55 to 30 to 15; no required tools count as a fifth |
| ProcedureStore.SearchStaysInMap | crates/ainl-memory/src/lib.rs:378-415 | what a search returns is validated or promoted, is the map's current value, and comes by falling score |
| ProcedureStore.MapEntryIsHit | crates/ainl-memory/src/lib.rs:378-415 | every usable entry with a positive score is a hit |
| ProcedureStore.GraphMemory.RecordReuse | crates/ainl-memory/src/lib.rs:418-452 | finds by the empty search, changes, upserts; not found changes nothing |
| ProcedureStore.ReusedExactly | crates/ainl-memory/src/lib.rs:435-450 | one more observation, fitness moved by +0.04, +0.01, -0.08 or -0.12 within [0, 1], the failure id added if new |
| ProcedureStore.RecordSucceedsIff | crates/ainl-memory/src/lib.rs:418-433 | recorded iff in the map, usable, and without required tools or with positive fitness |
| ProcedureStore.RecordChangesOneEntry | crates/ainl-memory/src/lib.rs:418-452 | only its own entry changes: one more observation, fitness in [0, 1], failure ids stay distinct |
| ProcedureStore.RecordsRefineMap | crates/ainl-memory/src/lib.rs:418-452 | in every run of reuse records the table is the map of recorded reuses |
| ProcedureStore.FailuresSpend | crates/ainl-memory/src/lib.rs:418-452 | in any such run, after enough failures alone a tool-using artifact is found by no later record |
| ProcedureStore.SpentArtifactIsNotFound | crates/ainl-memory/src/lib.rs:418-434 | after one write of a validated tool-using artifact of fitness zero it is in the map and no record finds it |
| Ledger.ProposalLedger.SubmitProposal | crates/ainl-improvement-proposals/src/ledger.rs:95-124 | refused on a hash mismatch, else a new unaccepted row |
| Ledger.ProposalLedger.ValidateAndRecord | crates/ainl-improvement-proposals/src/ledger.rs:129-167 | stores the validator's verdict on the stored text |
| Ledger.ProposalLedger.MarkAdopted | crates/ainl-improvement-proposals/src/ledger.rs:200-216 | adopts an accepted, not yet adopted row, else refuses |
| Ledger.RunIsImplied | crates/ainl-improvement-proposals/src/ledger.rs:95-216 | in every run each row is what the calls alone imply: first matching submission, latest verdict, first adoption while accepted |
| Ledger.SubmitSucceedsIff | crates/ainl-improvement-proposals/src/ledger.rs:95-124 | stored iff the text hashes to the trimmed lowercase proposed hash and the id is new; then the row is the proposal, neither validated nor adopted |
| Ledger.StoredTextMatchesHash | crates/ainl-improvement-proposals/src/lib.rs:49-52 | every stored text hashes to the proposed hash of its envelope, trimmed and in lower case |
| Ledger.AdoptSucceedsIff | crates/ainl-improvement-proposals/src/ledger.rs:200-216 | adoption succeeds iff the latest validation succeeded and there was no adoption |
| Ledger.AdoptedAtMostOnce | crates/ainl-improvement-proposals/src/ledger.rs:200-216 | two adoptions of one proposal never both succeed |
| Ledger.AdoptionIsFinal | crates/ainl-improvement-proposals/src/ledger.rs:200-216 | proposal and adoption fields never change after adoption |
| Ledger.AdoptedRowHasItsCall | crates/ainl-improvement-proposals/src/ledger.rs:200-216 | an adopted row goes back to one successful call, right after a successful latest validation |
| Ledger.RevalidationDecides | crates/ainl-improvement-proposals/src/ledger.rs:129-167 | after any run the next validation alone decides acceptance and touches nothing else |
| Ledger.RejectionIsNotFinal | crates/ainl-improvement-proposals/src/ledger.rs:126-167 | a rejected proposal is accepted by the next accepting validator |
| Ledger.AdoptedCanBeRejected | crates/ainl-improvement-proposals/src/ledger.rs:129-167 | an adopted proposal can be rejected later and stays adopted |
| Ledger.ProposalsGetAdopted | crates/ainl-improvement-proposals/src/ledger.rs:95-216 | for any text and any trimmed lowercase hash, submit, accept, adopt is a run that ends adopted |
| SseReader.Stream | sdk/javascript/index.js:85-104 | for every chunking: the events of the newline-terminated lines of the whole text up to the first `[DONE]` |
| SseReader.ReadExactly | sdk/javascript/index.js:92-96 | space around it or not, a line is an event iff it is `data: ` and something that is not `[DONE]`; with `[DONE]` it ends the stream |
| SseReader.JsSpaceExactly | sdk/javascript/index.js:93 | the characters that trimming strips |
| SseReader.EventsExactly | sdk/javascript/index.js:92-101 | what each line adds: its data, parsed where it parses; nothing after `[DONE]` |
| SseReader.SplitIsExact | sdk/javascript/index.js:90-91 | splitting is inverse to joining with newlines, and no line holds one |
| SseReader.SplitAppend | sdk/javascript/index.js:89-91 | more text keeps the finished lines and continues the unfinished one |

## Left out

- SQLite, serde, FTS5, SHA-256 and UUID internals: foreign code. Reads and writes fail only for the reasons
  the tables themselves give, plus the state and episode write failures that a turn tolerates.
- The failures full-text table, its search and the backfill of an empty index on open.
- Deleting nodes from outside these crates, and the delete triggers that serve it.
- Query helpers other than `lineage` and `walk_from`: single filtered scans.
- `persist_evolution_snapshot` and `evolve_persona_from_graph_signals`: they write a persona row without
  clearing the cache, so the cache theorems speak of runs in which only the scheduled pass writes it.
- The asynchronous runtime, hooks, adapters' outputs, telemetry, memory-context ranking and the JSON export
  file of a turn.
- `f32` rounding, NaN and wall-clock durations. Equal signals are folded by equal steps, so order-freeness
  of the tool set does not rest on exact arithmetic; the 0.8^n law and the budget fractions do.
- The sentence scoring formula, filler removal and capitalisation of the prose compressor: the selection is
  proved for every scoring, and the fence and no-growth laws for every prose compressor.
- The relevance scorer and the cosine similarity of the context compiler: the theorems hold for every ranking.
- Signals of semantic and procedural nodes: short tables whose results enter a pass as given.
- Failing reads inside a pass, and the error texts of its report.
- The order of clusters in a result, of required tools in an artifact, and of equally scored search hits.
- Titles, summaries, render targets and the Markdown and TOML renderings of an artifact.
- Overflow of the summed durations of a cluster.
- SseReader.Stream: bytes are decoded before they reach the model, so a multi-byte character cut by a chunk
  boundary is the decoder's business.
