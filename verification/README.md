# Verification model of the ERP retrieval platform

The platform answers questions of tenants over their own documents and their ERP
database. This project models its stateful and text-rewriting parts in Dafny and
proves what they promise.

- `Pipeline.dfy`, `PipelineGaps.dfy`, `UseCases.dfy`: documents are ingested, cut into chunks, embedded and
  marked, by workers that may die between any two effects and by a broker that delivers
  again. The protocol is a state machine over single effects; the use cases are classes
  over the in-memory stores, tied to it.
- `InMemoryVectors.dfy`, `MilvusProvider.dfy`, `TenantVectors.dfy`, `TenantRefinement.dfy`,
  `TenantSearch.dfy`: the simple vector store, the flat Milvus namespace, the store with one
  collection for each tenant over it, and the proof that the last refines the first.
- `SqlPlaceholders.dfy`, `PlaceholderForms.dfy`, `SqlValidator.dfy`, `SqlRules.dfy`,
  `QueryExecution.dfy`, `TenantBinding.dfy`: the SQL text on its way to the database, exactly
  which texts are refused, and when the statement sent depends on the tenant.
- `CircuitBreakers.dfy`, `LlmFallback.dfy`: breakers, ordered fallback and the answer cache.
- `PiiMasking.dfy`, `PiiShapes.dfy`, `Tables.dfy`, `TaxChunker.dfy`, `PythonText.dfy`: masking,
  table extraction and chunking.
- `RateLimit.dfy`, `Reranker.dfy`, `TaskRetries.dfy`, `Ranking.dfy`: the sliding-window
  limiter, the cross-encoder reranker, retries with dead letters, and the stable descending
  sort of the searches and the reranker.
- `Domain.dfy`, `Wrappers.dfy`, `Pigeonhole.dfy`: common types and the pigeonhole principle.

`dafny verify dfyconfig.toml` checks the whole project.

Each operation is proved equal to a function, and that function is then pinned down without
its own helpers and tables: by positions and characters, by literal numbers and words, or by
what stands under a key. `PlaceholderForms`, `SqlRules` and `PiiShapes` do so for the three
regular-expression parts.

Where the code and its own words differ, the model follows the code and says exactly when
the words hold:

- The embed use case promises no partial upserts (src/use_cases/tasks/embed_asset_use_case.py:60),
  but a failed attempt leaves the chunks before the failure (`NoPartialUpsertsExactlyWhen`).
  What always holds is that retries converge and the marker waits for a complete attempt.
- The circuit breaker speaks of a half-open probe (src/infrastructure/generation/circuit_breaker.py:6),
  but after the open time it is as new and takes the full number of failures
  (`OneProbeExactlyWhen`, `CooldownTakesTheFullNumber`).
- The Milvus naming says that distinct tenants always get distinct collections
  (src/infrastructure/vector_store/milvus_provider.py:367-368); that fails for some tenants
  whatever the hash, even among ids of 41 characters (`SharedExactlyWhen`,
  `SomeTenantsShareACollection`).
- The validator says that only a bound parameter satisfies tenant isolation
  (src/infrastructure/erp/query_validator.py:62-67), but its pattern also accepts a filter
  inside a string literal, which binds nothing (`TenantIsBoundExactlyWhen`,
  `PassingTextCanIgnoreTheTenant`).
- `insert_many` returns every id even when a batch size below one writes fewer rows
  (`ReturnedIdsAreStoredExactlyWhen`).
- The in-memory idempotency store keys by one joined string, which is not one to one
  (`KeysCollideExactlyWhen`).
- A text chunk carries the last title of the block it is flushed with, which may come
  after the text (`ChunksReadAsTitledExactlyWhen`).
- The two vector stores differ for assets recorded with a count of zero (`CountsAgree`) and
  for the empty module name (`SearchRefines`).

## Model

| member | source | states |
|---|---|---|
| SqlPlaceholders.LiteralEndIsLongest | src/infrastructure/erp/query_executor.py:116 | The scan with backtracking finds a quoted literal at a position exactly when the regular expression has a match there, and it is the longest one; an unclosed literal closes at the first quote of the last doubled pair, or is code. |
| SqlPlaceholders.ToPyformat | src/infrastructure/erp/query_executor.py:119-157 | The loop over the literals returns the segment-wise rewrite that the three theorems below are about. |
| SqlPlaceholders.PyformatMeansReplacement | src/infrastructure/erp/query_executor.py:119-157 | For every SQL text and every binding, expanding the rewritten text as PEP 249 pyformat gives what replacing each `:name` outside literals (and not after a colon) directly in the source gives; casts, percent signs and literals survive. |
| SqlPlaceholders.PyformatNeverMalformed | src/infrastructure/erp/query_executor.py:119-157 | The driver never meets a malformed directive: expansion fails only for a name the caller did not bind. |
| SqlPlaceholders.PyformatHasLeftInverse | src/infrastructure/erp/query_executor.py:119-157 | Binding every name to its own placeholder gives the source back, so two different texts never have the same rewrite. |
| PlaceholderForms.PlaceholderIsRewritten | src/infrastructure/erp/query_executor.py:115-157 | A colon and a name (a letter or underscore, then letters, digits and underscores, with none of these behind it), outside literals and not after a colon, becomes `%(name)s`; the text before and behind is rewritten by itself. |
| PlaceholderForms.CastStays | src/infrastructure/erp/query_executor.py:115-157 | A double colon stays as it is. |
| PlaceholderForms.LiteralStays | src/infrastructure/erp/query_executor.py:116-157 | A quoted literal stays, colons and all, with its percent signs doubled. |
| PlaceholderForms.PercentIsDoubled | src/infrastructure/erp/query_executor.py:144-157 | A percent sign outside literals is doubled. |
| PlaceholderForms.RewriteSplits | src/infrastructure/erp/query_executor.py:150-157 | The rewrite of a text is the rewrites of its parts, cut anywhere but in a literal, in a name or behind a colon. |
| SqlValidator.Validate | src/infrastructure/erp/query_validator.py:113-172 | The rules in order: errors and warnings as lists, validity, tenant filter, and the sanitized text only for a valid query. |
| SqlValidator.FindForbidden | src/infrastructure/erp/query_validator.py:122-126 | The loop over the forbidden keywords reports exactly the keywords that occur as words, in table order. |
| SqlValidator.FindInjections | src/infrastructure/erp/query_validator.py:128-131 | The loop over the injection patterns reports exactly the patterns that are found, in table order. |
| SqlValidator.SanitizeKeepsSearch | src/infrastructure/erp/query_validator.py:198-203 | A search for any pattern that cannot start with or end in what sanitizing removes has the same answer on the sanitized text. |
| SqlValidator.SanitizeKeepsStart | src/infrastructure/erp/query_validator.py:83 | The same for a match at the start of the text that may skip white space. |
| SqlValidator.InjectionsAreSteady | src/infrastructure/erp/query_validator.py:47-60 | Each of the twelve injection patterns is such a pattern. |
| SqlValidator.FilterIsSteady | src/infrastructure/erp/query_validator.py:71-74 | So is the bound tenant filter. |
| SqlValidator.LiteralTenantIsSteady | src/infrastructure/erp/query_validator.py:78-81 | So is the hardcoded tenant, although its quoted part spans white space. |
| SqlValidator.SanitizeKeepsReport | src/infrastructure/erp/query_validator.py:113-203 | For every text, all errors, all warnings and the tenant rule come out the same for the sanitized text. |
| SqlValidator.ExecutedTextPasses | src/infrastructure/erp/query_validator.py:101-103 | The text a report carries for the executor passes exactly when the report does, with the same warnings. |
| SqlValidator.AQueryPasses | src/infrastructure/erp/query_validator.py:113-203 | The query `SELECT tenant_id=:tenant_id` passes. |
| SqlValidator.PairFreeQueryPasses | src/infrastructure/erp/query_validator.py:113-203 | So does every text that begins with `SELECT `, holds the bound filter after a character that is no word character, and holds no semicolon and none of the letter pairs that the forbidden words and injection patterns begin with. |
| SqlValidator.SanitizeKeepsText | src/infrastructure/erp/query_validator.py:198-203 | Sanitizing keeps the sequence of characters other than white space, except the semicolons at the end; some are dropped exactly when the stripped text ends in one. |
| SqlValidator.SanitizeTwice | src/infrastructure/erp/query_validator.py:198-203 | Sanitizing again changes nothing exactly when no white space stands before the trailing semicolons. |
| SqlValidator.SanitizeTwiceCanDiffer | src/infrastructure/erp/query_validator.py:198-203 | An input on which it does change. |
| SqlValidator.SanitizeUnwraps | src/infrastructure/erp/query_validator.py:198-203 | White space at the ends and semicolons at the end go; a text without semicolons between them stays, its own white space collapsed. |
| SqlValidator.CollapseIsOneSpace | src/infrastructure/erp/query_validator.py:198-203 | A run of white space becomes one space. |
| SqlRules.FoundIsOccurrence | src/infrastructure/erp/query_validator.py:122-131 | The backtracking search finds a pattern exactly when it is spelled out at some position: white space, word characters and boundaries read off the characters. |
| SqlRules.ErrorsExactly | src/infrastructure/erp/query_validator.py:29-172 | For every text and every error, the error is reported exactly when the text deserves it, with the fourteen words and the shapes written out by position and character. |
| SqlRules.ErrorsInOrder | src/infrastructure/erp/query_validator.py:113-172 | The errors come in the order of the rules, each once. |
| SqlRules.CanExecuteExactlyWhen | src/infrastructure/erp/query_validator.py:101-172 | A text can be executed exactly when it begins with `SELECT`, holds the bound tenant filter, and holds none of the fourteen words and twelve shapes. |
| SqlRules.WordIsRefused | src/infrastructure/erp/query_validator.py:29-44 | Each of the fourteen words, in any case and between any texts that do not go on the word, is refused. |
| SqlRules.ShapeIsRefused | src/infrastructure/erp/query_validator.py:47-60 | A text that holds a refused shape is refused in any surroundings, `UNION` and `xp_` between characters that end words. |
| SqlRules.WarningsExactly | src/infrastructure/erp/query_validator.py:113-203 | When each of the two warnings is given, by position and character. |
| QueryExecution.QueryExecutor.Execute | src/infrastructure/erp/query_executor.py:246-273 | Nothing runs without a tenant filter or with errors; otherwise the sanitized text runs with the caller's tenant and is logged whether it fails or not; with the validator's reports only passing texts reach the log. |
| QueryExecution.QueryExecutor.Run | src/infrastructure/erp/query_executor.py:275-341 | Result and log entry for rows, for a driver error, and for a tenant error that is raised again. |
| TenantBinding.TenantIsBoundExactlyWhen | src/infrastructure/erp/query_executor.py:119-176 | For every text, the driver can send a statement exactly when every placeholder outside the literals is `:tenant_id`, and any two tenants have different statements exactly when there is such a placeholder too. |
| TenantBinding.FilterIsFilled | src/infrastructure/erp/query_executor.py:119-176 | Between texts without quotes and colons the placeholder `:tenant_id` is filled with the tenant, and nothing else changes. |
| TenantBinding.PassingTextBindsTheTenant | src/infrastructure/erp/query_validator.py:71-74 | For the executed text of a passing query without quotes and dollar signs, tenants have different statements exactly when the driver can send one at all. |
| TenantBinding.PassingTextCanIgnoreTheTenant | src/infrastructure/erp/query_validator.py:71-74 | A query with the filter inside a literal passes, is executed as it is, and the database gets the same statement for every tenant. |
| PiiMasking.MaskPii | src/middleware/PIIMaskingMiddleware.py:73-86 | The loop over the patterns returns the text after four passes and a count for exactly the kinds that were found. |
| PiiMasking.EmailHasShape | src/middleware/PIIMaskingMiddleware.py:44-47 | A match of the email pattern is a local part, an at sign, a domain and a dot with letters. |
| PiiMasking.ShapeIsEmail | src/middleware/PIIMaskingMiddleware.py:44-47 | Wherever such a shape starts, the pattern matches. |
| PiiMasking.MaskedIsClean | src/middleware/PIIMaskingMiddleware.py:43-86 | The masked text has no email, no standalone 18-digit run and no standalone 15-digit run, and no phone number exactly when, in the text without its emails, no phone number and no such run is directly followed by a `+213` number. |
| PiiMasking.FollowersOnceAndForAll | src/middleware/PIIMaskingMiddleware.py:80-86 | Looking for such followers once, after the email pass, is the same as looking in the text that each later pass meets: the passes over numbers do not move each other's numbers. |
| PiiMasking.NoDigitPlusIsEnough | src/middleware/PIIMaskingMiddleware.py:43-86 | If no plus sign directly follows a digit in the input, nothing of any kind is left. |
| PiiMasking.MaskingIsIdempotent | src/middleware/PIIMaskingMiddleware.py:73-86 | Masking twice is masking once exactly under the same condition. |
| PiiMasking.MaskingMayLeaveAPhone | src/middleware/PIIMaskingMiddleware.py:49-51 | Two phone numbers written together, the second with `+213`: the second one is left by the masking. |
| PiiMasking.CountsAreInsertedTokens | src/middleware/PIIMaskingMiddleware.py:80-86 | The counts are the redaction tokens that the passes insert, kind by kind. |
| PiiShapes.EmailGoesAsFar | src/middleware/PIIMaskingMiddleware.py:44-47 | A match is a whole address: the longest local part, an at sign, the domain up to the last dot that has two letters behind it, and all the letters there. |
| PiiShapes.AddressIsMatched | src/middleware/PIIMaskingMiddleware.py:44-47 | And every whole address is matched, exactly as far as it goes. |
| PiiShapes.NothingIsLeft | src/middleware/PIIMaskingMiddleware.py:43-86 | By position and digit: masked text holds no address, no 18 and no 15 digits between word boundaries, and no phone number (`+213` or `0`, a digit from 5 to 7, eight digits, no digit at either side) exactly when no number is followed by a `+213` number. |
| PiiShapes.FollowersByPosition | src/middleware/PIIMaskingMiddleware.py:43-86 | That condition is one on positions of the text without its addresses. |
| PiiShapes.FirstMatchIsReplaced | src/middleware/PIIMaskingMiddleware.py:80-86 | A pass leaves the text before the first match, puts the token in the place of the whole match, and goes on behind it. |
| PiiShapes.OneItemIsMasked | src/middleware/PIIMaskingMiddleware.py:73-86 | A text with one address or number becomes the same text with the token of its kind in that place. |
| Pipeline.StepKeepsInvariant | src/use_cases/tasks/embed_asset_use_case.py:62-102 | Every step of every ingest and embed delivery, and the loss of a worker at any point, keeps the protocol invariant. |
| Pipeline.RunsKeepInvariant | src/use_cases/tasks/embed_asset_use_case.py:62-102 | So does every run of any number of interleaved deliveries. |
| Pipeline.MarkersNeverLie | src/use_cases/tasks/embed_asset_use_case.py:62-102 | In every reachable state an asset marked embedded has a vector record for every stored chunk, with its text, tenant and asset and the right count, and the vector store holds nothing stale. |
| Pipeline.ProcessedIsFinal | src/use_cases/tasks/ingest_asset_use_case.py:70-103 | A processed asset has the whole list its ingest produced and keeps it in every later state; jobs and markers exist only for processed assets; chunks of a marked asset stay searchable. The chunk store may replace at once or delete and then insert, with a crash between. |
| Pipeline.TwoStepSaveIsSave | src/infrastructure/persistence/chunk_store.py:40-56 | Deleting and inserting one by one, uninterrupted, comes to the same as replacing the list at once, except that an empty list leaves no entry. |
| PipelineGaps.LostJobsStayLost | src/infrastructure/workers/tasks/ingest_task.py:124-142 | After a worker dies between marking and dispatching, no later step sends the embed job or marks the asset embedded. |
| PipelineGaps.JobsCanBeLost | src/infrastructure/workers/tasks/ingest_task.py:124-142 | Such a state is reachable in every configuration. |
| PipelineGaps.RacingIngestsBreakTheMarker | src/infrastructure/persistence/chunk_store.py:40-56 | With two live ingests of one asset, and with either chunk store, a run ends with a false marker and a stale vector. |
| PipelineGaps.MarkersNeverLieExactlyWhen | src/use_cases/tasks/embed_asset_use_case.py:62-102 | In every configuration markers are true in all reachable states, and no vector is stale, exactly when no asset has two live ingests. |
| UseCases.InMemoryChunkStore.SaveChunks | src/infrastructure/persistence/chunk_store.py:15-18 | Replaces the list of the asset. |
| UseCases.InMemoryChunkStore.DeleteByAsset | src/infrastructure/persistence/chunk_store.py:24-27 | Removes the list and says how long it was. |
| UseCases.KeysCollideExactlyWhen | src/infrastructure/workers/idempotency_store.py:28-29 | The single-string key of the in-memory idempotency store confuses two tenants exactly when one id, with a colon, begins the other. |
| UseCases.IngestAssetUseCase.Execute | src/use_cases/tasks/ingest_asset_use_case.py:54-112 | Skips processed assets, fails without a file or when chunking raises, and otherwise stores the chunks and only then marks the asset. |
| UseCases.EmbedAssetUseCase.Execute | src/use_cases/tasks/embed_asset_use_case.py:48-114 | The loop upserts chunk by chunk and marks at the end; a raising embedding call leaves the chunks before it and no marker. |
| UseCases.AttemptStoresChunk | src/use_cases/tasks/embed_asset_use_case.py:90-102 | After a complete attempt, and after a failed one for the chunks before the failure, the record under the tenant and chunk id has the text, the embedding of that text, and the asset, tenant and module of the chunk. |
| UseCases.AttemptKeepsOtherKeys | src/use_cases/tasks/embed_asset_use_case.py:90-102 | Records under other keys are as they were. |
| UseCases.NoPartialUpsertsExactlyWhen | src/use_cases/tasks/embed_asset_use_case.py:60-100 | A delivery that fails at some chunk leaves every key of the vector store as it was exactly when the chunks before it were stored already, just so. |
| UseCases.FreshAssetKeepsPromiseExactlyWhen | src/use_cases/tasks/embed_asset_use_case.py:60-100 | For an asset none of whose chunks is stored, no partial upserts are left exactly by a delivery that fails at its first chunk. |
| UseCases.RetriesConverge | src/use_cases/tasks/embed_asset_use_case.py:90-102 | Any number of failed attempts and then a complete one leave the stores exactly as one clean attempt does, as a sequence. |
| UseCases.MarkerMeansComplete | src/use_cases/tasks/embed_asset_use_case.py:90-102 | The marker appears exactly when some attempt was complete, and then the stores are as after one clean attempt. |
| UseCases.EmbedDeliveryIsExecute | src/use_cases/tasks/embed_asset_use_case.py:62-102 | An uninterrupted embed delivery of the protocol does to the stores what one call of the use case does. |
| UseCases.IngestDeliveryIsExecute | src/infrastructure/workers/tasks/ingest_task.py:124-163 | An ingest delivery of the protocol whose worker lives (skipped, failed before anything is stored, or complete, with the embed job sent or not) does to the stores what one call of the use case does, among assets whose joined keys differ. |
| InMemoryVectors.InMemoryVectorStore.SaveVectors | src/infrastructure/vector_store/in_memory_vector_store.py:51-59 | Sets the marker with its count. |
| InMemoryVectors.InMemoryVectorStore.Upsert | src/infrastructure/vector_store/in_memory_vector_store.py:69-98 | Removes the record of the same tenant and chunk and appends the new one. |
| InMemoryVectors.InMemoryVectorStore.SearchSimilar | src/infrastructure/vector_store/in_memory_vector_store.py:100-130 | The first k, also for negative k, of the tenant's records of the module in the stable descending order of similarity; everything returned is such a record with its own content, score, asset and module. |
| InMemoryVectors.ByKeyPut | src/infrastructure/vector_store/in_memory_vector_store.py:79-98 | Seen by tenant and chunk id, an upsert is a map update. |
| InMemoryVectors.TenantsDoNotInterfere | src/infrastructure/vector_store/in_memory_vector_store.py:47-130 | Over any run, searches, markers and counts of a tenant equal those of the run with every other tenant's operations erased. |
| InMemoryVectors.SearchIsScoped | src/infrastructure/vector_store/in_memory_vector_store.py:100-130 | Everything found is a stored record of the tenant and module, with its own content and score. |
| Ranking.RankedIsTheRanking | src/infrastructure/vector_store/in_memory_vector_store.py:116-120 | The sort used everywhere is the one order that is descending and keeps ties in place. |
| MilvusProvider.TenantCollectionIsLegal | src/infrastructure/vector_store/milvus_provider.py:360-372 | Every collection name is of letters, digits and underscores, does not start with a digit and has at most 200 characters. |
| MilvusProvider.SharedExactlyWhen | src/infrastructure/vector_store/milvus_provider.py:360-372 | Two tenants have one collection exactly when the readable parts, cut at 183 characters, and the ten digits of the digests agree. |
| MilvusProvider.ReadablePartIs | src/infrastructure/vector_store/milvus_provider.py:360-372 | The readable part keeps small letters and digits, makes capital letters small, puts an underscore for anything else, and ends at 183 characters. |
| MilvusProvider.SomeTenantsShareACollection | src/infrastructure/vector_store/milvus_provider.py:360-372 | Whatever the hash, some two different tenant ids share a collection: a pair is found among the ids of 41 minus signs and underscores. |
| MilvusProvider.ReturnedIdsAreStoredExactlyWhen | src/infrastructure/vector_store/milvus_provider.py:268-277 | When the last record's id is new, every id that `insert_many` returns is stored exactly when the batch size is at least one or there are no records. |
| MilvusProvider.PositiveBatchesStoreAll | src/infrastructure/vector_store/milvus_provider.py:268-269 | With a batch size of at least one every record's id is stored, and holds the last record that came under it. |
| MilvusProvider.ItemIsStored | src/infrastructure/vector_store/milvus_provider.py:222-277 | Item i of the lists is stored under its own id with its own vector, its text up to 32000 characters and its metadata up to 8192, unless a later item has the same id. |
| MilvusProvider.BatchesMissLast | src/infrastructure/vector_store/milvus_provider.py:268-269 | With a smaller batch size the last row is never written, and with zero none is. |
| MilvusProvider.MilvusVectorDBProvider.CreateCollection | src/infrastructure/vector_store/milvus_provider.py:153-191 | Keeps an existing collection unless asked to recreate it. |
| MilvusProvider.MilvusVectorDBProvider.DeleteCollection | src/infrastructure/vector_store/milvus_provider.py:193-198 | Removes the collection, if it exists, and no other. |
| MilvusProvider.MilvusVectorDBProvider.UpsertInBatches | src/infrastructure/vector_store/milvus_provider.py:268-269 | The batch loop writes what the batches hold, in order. |
| MilvusProvider.MilvusVectorDBProvider.InsertMany | src/infrastructure/vector_store/milvus_provider.py:222-277 | Refuses lists of different lengths; writes truncated rows, under the ids given or new ones, to one collection; returns those ids whatever was written. |
| MilvusProvider.MilvusVectorDBProvider.InsertOne | src/infrastructure/vector_store/milvus_provider.py:204-220 | One row of one collection is set, nothing else. |
| MilvusProvider.MilvusVectorDBProvider.GetRecord | src/infrastructure/vector_store/milvus_provider.py:279-303 | The row under the id as given, with its metadata decoded, or none. |
| MilvusProvider.MilvusVectorDBProvider.SearchByVector | src/infrastructure/vector_store/milvus_provider.py:309-341 | The first hits of the index over that collection; none when it does not exist. |
| TenantVectors.StateNameIsLegal | src/infrastructure/vector_store/tenant_collection_vector_store.py:71-72 | Marker collections have legal names of at most 206 characters. |
| TenantVectors.ChunksNameIsNoStateName | src/infrastructure/vector_store/tenant_collection_vector_store.py:68-72 | No chunk collection of any tenant has the name of a marker collection of any tenant. |
| TenantVectors.NamesAreApart | src/infrastructure/vector_store/tenant_collection_vector_store.py:68-72 | Tenants without a common chunk collection have no common marker collection either. |
| TenantVectors.DistinctDigestsSeparate | src/infrastructure/vector_store/tenant_collection_vector_store.py:68-72 | Tenants with distinct digests are such tenants. |
| TenantVectors.TenantCollectionVectorStore.Count | src/infrastructure/vector_store/tenant_collection_vector_store.py:103-108 | The count in the marker row, or zero. |
| TenantVectors.TenantCollectionVectorStore.HasVectors | src/infrastructure/vector_store/tenant_collection_vector_store.py:78-80 | Whether that count is positive. |
| TenantVectors.TenantCollectionVectorStore.SaveVectors | src/infrastructure/vector_store/tenant_collection_vector_store.py:82-101 | Writes one row of the tenant's marker collection. |
| TenantVectors.TenantCollectionVectorStore.Upsert | src/infrastructure/vector_store/tenant_collection_vector_store.py:114-138 | Writes one row of the tenant's chunk collection. |
| TenantVectors.TenantCollectionVectorStore.SearchSimilar | src/infrastructure/vector_store/tenant_collection_vector_store.py:140-179 | A hit of the ranked list is answered exactly when it is among the first 4k (the first k without a module or for the empty one), it matches, and fewer than k matches stand before it, each in its place; with no more hits than that the answer is the exhaustive one. |
| TenantVectors.TenantCollectionVectorStore.DropTenant | src/infrastructure/vector_store/tenant_collection_vector_store.py:185-194 | Removes both collections of the tenant and no other. |
| TenantVectors.OverfetchIsPrefix | src/infrastructure/vector_store/tenant_collection_vector_store.py:152-170 | Looking at 4k hits with a module, at k without, gives a prefix of rank-everything-then-filter-then-take-k, and all of it exactly when those hits hold k matches or all of them; always so when the collection has no more records than that. |
| TenantRefinement.OtherTenantsUntouched | src/infrastructure/vector_store/tenant_collection_vector_store.py:68-138 | An operation of one tenant leaves the collections of every other tenant as they were, whatever it writes. |
| TenantRefinement.UntouchedExactlyWhen | src/infrastructure/vector_store/tenant_collection_vector_store.py:68-138 | The isolation of two tenants holds exactly when they do not share a collection. |
| TenantRefinement.StepRefines | src/infrastructure/vector_store/tenant_collection_vector_store.py:82-138 | Upsert, marker and erasure keep the flat namespace in step with the reference store. |
| TenantRefinement.RunsRefine | src/infrastructure/vector_store/tenant_collection_vector_store.py:68-194 | Over any run of any tenants without a shared collection, each tenant's two collections hold exactly the reference store's records and markers of that tenant. |
| TenantRefinement.CountsAgree | src/infrastructure/vector_store/tenant_collection_vector_store.py:78-108 | Counts agree with the reference; `has_vectors` agrees exactly unless the asset was recorded with a count of zero or less. |
| TenantRefinement.MarkerIsReadBackExactlyWhen | src/infrastructure/vector_store/tenant_collection_vector_store.py:82-108 | A marker just written is read back exactly when neither its id nor its metadata was truncated, or the count was zero. |
| TenantSearch.HitsAreRecords | src/infrastructure/vector_store/milvus_provider.py:309-341 | Over an exact index the hits of a tenant's collection are the tenant's records, each once, as they were upserted. |
| TenantSearch.SearchesAgree | src/infrastructure/vector_store/tenant_collection_vector_store.py:152-170 | The exhaustive search returns the same scores in the same order as the reference store. |
| TenantSearch.FoundChunksAreRecords | src/infrastructure/vector_store/tenant_collection_vector_store.py:152-170 | Every chunk it returns is a record of the tenant and module with its own text, asset and score. |
| TenantSearch.SearchRefines | src/infrastructure/vector_store/tenant_collection_vector_store.py:140-179 | After any run, the scores found are a prefix of the reference store's after the same run, and all of them exactly when the hits fetched hold k matches or all there are; for the empty module name, exactly when the tenant has no record that was stored with it. |
| TenantSearch.AnswersAreRecords | src/infrastructure/vector_store/tenant_collection_vector_store.py:140-179 | After any run, everything found is a record of the tenant and module, none comes twice, and when no two scores tie the chunks begin those that the reference store finds. |
| TenantSearch.EmptyModuleFindsNothing | src/infrastructure/vector_store/tenant_collection_vector_store.py:157-160 | Searching for the empty module name finds nothing. |
| TenantSearch.ReferenceFindsNothingExactlyWhen | src/infrastructure/vector_store/in_memory_vector_store.py:112-130 | The reference store finds nothing exactly when it has no record of the tenant and the module, the empty name included. |
| CircuitBreakers.CircuitBreaker.IsOpen | src/infrastructure/generation/circuit_breaker.py:41-62 | Open until the open time has passed; then everything is reset. |
| CircuitBreakers.CircuitBreaker.RecordSuccess | src/infrastructure/generation/circuit_breaker.py:68-75 | Resets count and opening time. |
| CircuitBreakers.CircuitBreaker.RecordFailure | src/infrastructure/generation/circuit_breaker.py:77-97 | Counts, and opens at the threshold unless already open. |
| CircuitBreakers.RunKeepsConsistent | src/infrastructure/generation/circuit_breaker.py:41-97 | Over every run a breaker is open exactly when its count has reached the threshold. |
| CircuitBreakers.WindowBound | src/infrastructure/generation/circuit_breaker.py:41-97 | In any half-open window as long as the open time, with no attempt that both starts and succeeds in it, at most `max_failures` attempts get through (one, for a threshold below one). |
| CircuitBreakers.WindowsBound | src/infrastructure/generation/circuit_breaker.py:41-97 | Over n such windows in a row, at most n times as many. |
| CircuitBreakers.CooldownTakesTheFullNumber | src/infrastructure/generation/circuit_breaker.py:41-97 | After the open time, attempts that fail one after the other are all let through until there are as many as the threshold, and they open the breaker exactly when there are. |
| CircuitBreakers.OneProbeExactlyWhen | src/infrastructure/generation/circuit_breaker.py:50-60 | After the open time one failed attempt opens the breaker for another open time exactly for a threshold of at most one: only then is there a single probe. |
| CircuitBreakers.SecondProbeIsLetThrough | src/infrastructure/generation/circuit_breaker.py:50-60 | With a threshold of two, a second attempt is let through after a failed first one. |
| LlmFallback.ModelSelector.Complete | src/infrastructure/generation/model_selector.py:77-133 | The loop over the slots leaves every breaker, and answers, as the fallback function says. |
| LlmFallback.SelectTakesFirst | src/infrastructure/generation/model_selector.py:88-133 | The answer is that of the first provider that is closed and does not raise; breakers after it are untouched. |
| LlmFallback.DegradedModeService.Complete | src/infrastructure/generation/degraded_mode_service.py:55-97 | Fresh answers are cached; without one the cached answer or the placeholder is returned. |
| LlmFallback.DegradedModeLLM.Complete | src/infrastructure/generation/degraded_mode_service.py:139-151 | The same under the hash of the stripped prompt; there is no failing outcome. |
| LlmFallback.CacheIsHistory | src/infrastructure/generation/degraded_mode_service.py:103-109 | Over any run the cache holds the most recent fresh answer of each key. |
| LlmFallback.AnswerIsFreshCachedOrPlaceholder | src/infrastructure/generation/degraded_mode_service.py:55-151 | After any run, the next answer is the first available provider's, else the most recent fresh answer of the same key in the history, else the placeholder. |
| LlmFallback.KeysAreStrippedPrompts | src/infrastructure/generation/degraded_mode_service.py:112-119 | With a hash that is one to one, prompts share a cache entry exactly when they are equal apart from white space at their ends. |
| LlmFallback.AnswerIsToThePrompt | src/infrastructure/generation/degraded_mode_service.py:55-151 | So after any run an answer is fresh, or the last fresh one to the same prompt, or the placeholder: never one to another prompt. |
| LlmFallback.BreakerRunsAlone | src/infrastructure/generation/model_selector.py:88-133 | Over any run each provider's breaker goes through exactly the calls that reach it. |
| LlmFallback.AttemptsAreBounded | src/infrastructure/generation/model_selector.py:88-133 | Over any run of requests each provider is attempted at most `max_failures` times in any window of the open time in which it has no success. |
| LlmFallback.AttemptsAreBoundedOverWindows | src/infrastructure/generation/model_selector.py:88-133 | Over n such windows in a row, at most n times as often. |
| LlmFallback.BreakersAreConsistent | src/infrastructure/generation/model_selector.py:88-133 | After any run each breaker is open exactly when its count has reached the threshold. |
| Tables.ExtractAsciiTables | src/infrastructure/workers/chunkers/helpers/table_helpers.py:50-65 | The substitution returns the text with placeholders and the stripped tables. |
| Tables.BlockIsMaximal | src/infrastructure/workers/chunkers/helpers/table_helpers.py:11 | A table block takes in the whole run of pipe lines. |
| Tables.OnePlaceholderPerTable | src/infrastructure/workers/chunkers/helpers/table_helpers.py:50-65 | In NUL-free text the placeholders found in the result are those of the tables, each once, in ascending order. |
| Tables.RestoreGivesText | src/infrastructure/workers/chunkers/helpers/table_helpers.py:50-65 | Putting the blocks back gives the text back exactly; the tables are the blocks without the white space at their edges. |
| Tables.RestoringTablesGivesText | src/infrastructure/workers/chunkers/helpers/table_helpers.py:50-65 | Putting the returned tables back into the returned text gives every character other than white space, in order. |
| Tables.NothingLeftToExtract | src/infrastructure/workers/chunkers/helpers/table_helpers.py:50-65 | Extracting again from the result finds nothing and changes nothing. |
| Tables.LinesComeOutAsTable | src/infrastructure/workers/chunkers/helpers/table_helpers.py:11-65 | Two or more lines of blanks, a bar and text in a row, each with its newline, come out as one table with one placeholder line, before any other line or the end. |
| Tables.LineStays | src/infrastructure/workers/chunkers/helpers/table_helpers.py:11-65 | A single such line stays, and so does any other line. |
| TaxChunker.SplitOnBoundaries | src/infrastructure/workers/chunkers/helpers/text_helpers.py:20-38 | The indexed loop cuts the text at the boundaries, or into paragraphs when there are none. |
| TaxChunker.BoundariesAreTheMarks | src/infrastructure/workers/chunkers/helpers/text_helpers.py:12-26 | The boundaries are exactly the line starts with a mark: no match hides another. |
| TaxChunker.SplitKeepsText | src/infrastructure/workers/chunkers/helpers/text_helpers.py:20-38 | Splitting keeps every character other than white space, in order. |
| TaxChunker.MarkIsWritten | src/infrastructure/workers/chunkers/helpers/text_helpers.py:12-17 | A mark goes exactly as far as it is written: one of the five words in any case, white space and a number, with the colon or dash behind an article, or as a number or Roman numeral that ends its word. |
| TaxChunker.BoundariesAreWritten | src/infrastructure/workers/chunkers/helpers/text_helpers.py:12-26 | The boundaries are exactly the line starts at which a mark is written. |
| TaxChunker.SectionIs | src/infrastructure/workers/chunkers/helpers/text_helpers.py:35-37 | Section k goes from its mark to the next one, the last to the end. |
| TaxChunker.ParagraphsAre | src/infrastructure/workers/chunkers/helpers/text_helpers.py:26-28 | Without a mark the text is cut at each double newline, the leftmost first: joined again the parts are the text, no part holds one, and none but the last ends in a newline. |
| TaxChunker.TaxCircularChunker.ProcessOrdered | src/infrastructure/workers/chunkers/tax_circular_chunker.py:139-159 | The pass with its pending text and running heading. |
| TaxChunker.TaxCircularChunker.FlushText | src/infrastructure/workers/chunkers/tax_circular_chunker.py:182-185 | Nothing for nothing pending, else the chunks of the joined text. |
| TaxChunker.TaxCircularChunker.ChunkTextBlock | src/infrastructure/workers/chunkers/tax_circular_chunker.py:187-208 | One chunk for each section that fits, the splitter's pieces for one that does not, with the article heading. |
| TaxChunker.TextIsUnderItsTitleExactlyWhen | src/infrastructure/workers/chunkers/tax_circular_chunker.py:139-159 | Every text is under the title in force at it exactly when no text is followed, before the next table, by titles that end in another heading. |
| TaxChunker.ChunksAreThePieces | src/infrastructure/workers/chunkers/tax_circular_chunker.py:187-208 | The text chunks are exactly the stripped sections that fit the chunk size and the pieces that are not empty of those that do not. |
| TaxChunker.ChunkCarriesItsMark | src/infrastructure/workers/chunkers/tax_circular_chunker.py:199-204 | A section that fits becomes one chunk under its own stripped mark, or without an article heading when it has none. |
| TaxChunker.ChunksReadAsTitledExactlyWhen | src/infrastructure/workers/chunkers/tax_circular_chunker.py:139-208 | So the chunks read as the document under its titles exactly when titles lead their blocks. |
| TaxChunker.LaterTitleCanWin | src/infrastructure/workers/chunkers/tax_circular_chunker.py:139-159 | A text `a` and then a title `B`: the chunk of the text carries the heading `B`. |
| TaxChunker.ChunksKeepDocument | src/infrastructure/workers/chunkers/tax_circular_chunker.py:139-208 | When no section exceeds the chunk size, the chunks read as the document does: every character other than white space once and in order, every table once and in its place, tables under the last title before them and text under the last title of its block. |
| RateLimit.WindowCounter.Increment | src/middleware/RateLimitMiddleware.py:43-51 | Evicts, appends and counts the hits of one key. |
| RateLimit.RateLimitMiddleware.Dispatch | src/middleware/RateLimitMiddleware.py:76-129 | Exempt paths, then the user's limit, then the address's; a request over its user's limit does not count against its address; also with one counter injected for both. |
| RateLimit.EvictionIsInvisible | src/middleware/RateLimitMiddleware.py:43-51 | Over any run, the verdicts are those of a limiter that counts the whole hit history. |
| RateLimit.PassesAreBounded | src/middleware/RateLimitMiddleware.py:99-129 | Over any run, in any closed interval of 60 seconds at most 60 requests pass the limit of a user and at most 200 from an address pass. |
| RateLimit.VerdictIsByCount | src/middleware/RateLimitMiddleware.py:76-129 | After any run a request is exempt for the two open paths; else refused for its user exactly when more than 60 of the user's requests, this one included, are counted in the last 60 seconds; else refused for its address when more than 200 are; else it passes. |
| RateLimit.UserIsAuthenticated | src/middleware/RateLimitMiddleware.py:76-129 | The authenticated user is counted whatever the header says, the header without one, and `anonymous` without either. |
| RateLimit.AddressIsForwarded | src/middleware/RateLimitMiddleware.py:76-129 | The first forwarded address, stripped, is counted whatever follows it and whatever the host is; without it the host, and `unknown` without either. |
| Reranker.CrossEncoderReranker.Rerank | src/infrastructure/rag/reranker.py:53-100 | Nothing for no documents or no places; the identity order when scoring fails; else the rescored documents ranked and cut. |
| Reranker.RerankRaisesExactlyWhen | src/infrastructure/rag/reranker.py:79-100 | An error escapes exactly when a predictor's scores are not one number for each document, and documents were asked for. |
| Reranker.RemoteScoresAreGood | src/infrastructure/rag/reranker.py:136-158 | Whatever the endpoint sends, accepted scores are numbers, one for each document. |
| Reranker.OwnScores | src/infrastructure/rag/reranker.py:142-155 | When the indices are a permutation, each document gets the score that the response gives for its index. |
| Reranker.OrderDoesNotMatter | src/infrastructure/rag/reranker.py:142-155 | The scores do not depend on the order of the response items. |
| Reranker.RemoteRerankIsRanking | src/infrastructure/rag/reranker.py:53-158 | For every response whose usable indices are a permutation, the outcome is the stable descending order, cut to `top_k`, of the documents with their own scores. |
| Reranker.ResponseOrderDoesNotMatter | src/infrastructure/rag/reranker.py:53-158 | The outcome does not depend on the order of the response items. |
| Reranker.ScoresGoInOrder | src/infrastructure/rag/reranker.py:53-138 | When a scorer, handed the query and the contents, gives a list of one number for each document, document i gets entry i, and the outcome is the stable descending order of those, cut to `top_k`. |
| Reranker.WithoutScoresOrderStays | src/infrastructure/rag/reranker.py:63-78 | When scoring fails the outcome is the stable descending order of the documents with the scores they came with, cut to `top_k`. |
| Reranker.ResultsAreRead | src/infrastructure/rag/reranker.py:143-150 | The list of results is read item by item: an entry that is no pair is skipped, and one that does not convert spoils the whole list. |
| TaskRetries.Worker.Run | src/infrastructure/workers/tasks/ingest_task.py:117-217 | One delivery: its result, the dispatch counter, and a dead letter with the failed counter exactly when an error comes after the third retry. |
| TaskRetries.InMemoryDeadLetterRepository.Save | src/infrastructure/workers/dead_letter_repository.py:28-37 | Appends the entry. |
| TaskRetries.Countdowns | src/infrastructure/workers/tasks/ingest_task.py:176-179 | An error is tried again after 30, 60 and 120 seconds and then given up; nothing else is tried again. |
| TaskRetries.StepKeepsInvariant | src/infrastructure/workers/tasks/embed_task.py:119-198 | Every delivery of every task keeps the bookkeeping invariant. |
| TaskRetries.FailuresAreReported | src/infrastructure/workers/tasks/ingest_task.py:124-217 | Over any interleaving each task makes at most four attempts and ends as its last attempt says; dead letters, the failed counter and the tasks whose four attempts all raised are equal in number, name by name, and are the same tasks. |
| TaskRetries.DispatchesAreAttempts | src/infrastructure/workers/tasks/ingest_task.py:117-124 | Over any interleaving the dispatch counter of a task name is the number of attempts that its tasks have made. |
| TaskRetries.EndedIsFinal | src/infrastructure/workers/tasks/ingest_task.py:124-217 | A task that has ended is not run again. |

## Left out

- Cosine similarity, the embedding model, SHA-256, JSON text, the vector index, the recursive splitter, the table summary, the rerank predictor and endpoint, LLM providers, the database driver and the clock are parameters. Where a theorem needs more of one of them it says so: digests that are hex, tenants at hand that do not share a collection, JSON that reads back what it wrote and does not parse when cut short, an index that is exact.
- Scores, similarities and times are real numbers: floating-point rounding is not modelled.
- Upper and lower case, digits, word characters and white space are the ASCII ones in the SQL validator, the masking patterns, the chunker and `str.strip`; Python's wider Unicode classes are not modelled. The placeholder rewrite needs no such limit, because its expressions only name ASCII characters.
- MilvusProvider.MilvusVectorDBProvider.GetRecord: the record id is looked up as it stands; the quoting of ids inside the filter expression of the database is not modelled. Consistency levels and connection handling are not modelled either.
- MilvusProvider.MilvusVectorDBProvider.InsertMany: the vector dimension of a collection is not tracked.
- TenantVectors.TenantCollectionVectorStore.SearchSimilar: asks for k of at least one, as the database does for its limit.
- TenantSearch.SearchRefines: compares scores; where scores tie, the index may order chunks as the reference store does not (`AnswersAreRecords` compares chunks).
- TenantVectors.TenantCollectionVectorStore.Count: a marker row always carries a number, since nothing else writes that collection; converting text to an integer is not modelled.
- Pipeline.MarkersNeverLie: assumes fresh chunk ids, one live ingest for each asset and no erased tenant. The Mongo insert is a step for each document.
- Embedding is not promised to happen: a job can be lost, as two of the results above show.
- UseCases.IngestAssetUseCase.Execute: chunk strategies, metadata and durations are left out; the chunker is a function of the content that may fail.
- LlmFallback.DegradedModeService.Complete: temperature and token limits are only forwarded, and are left out.
- TaxChunker.ChunksKeepDocument: for a section that is too long the recursive splitter must neither lose nor repeat text; with overlapping pieces it repeats some. The layout analysis that produces the elements, HTML detection and the fallback are not part of this model.
- RateLimit.RateLimitMiddleware.Dispatch: the response body and headers are left out.
- TaskRetries.FailuresAreReported: no worker is lost, the hard time limit does not strike, and saving a dead letter succeeds. The separate counter for a failed embed dispatch is left out.
- QueryExecution.QueryExecutor.Execute: the driver is a parameter; what the Postgres one sends is stated in `TenantBinding`. Latency, metrics and the choice of driver are left out.
- Authentication, roles, routes, storage backends, prompts, evaluation, metrics and logging are left out; they would add finite tables and single branches.
