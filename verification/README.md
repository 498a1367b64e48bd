# Verified model of the document search backend

This project models the parts of the backend that carry state or make promises over many calls, and proves
those promises for all inputs, runs and interleavings:

- **Rate limiting** (`RateLimit`, `RateLimitHistory`, `RateLimitThreads`, `RedisRateLimit`). The in-memory
  sliding window as a class over deques; histories of checks; threads that read the clock before they take the
  lock; and the Redis script on a sorted set with a TTL, with the simulation between the two.
- **The indexing lifecycle** (`Lifecycle`, `LifecycleRuns`, `LifecycleInvariant`, `LifecycleTheorems`,
  `LifecycleNames`, `LifecycleIndex`, `LifecycleQueue`, `LifecycleContracts`,
  `LifecyclePermissions`, `MetadataStore`, `DocumentServices`). Upload, reindex, delete
  and worker steps over object storage, job queue, chunk index and metadata, with arbitrary failures of indexing and
  enqueueing. The services are classes whose methods are proved equal to the atomic step functions; the theorems are
  about all runs of those.
- **Chunking** (`Text`, `Chunker`, `ChunkerProperties`). The chunking loop, and what its windows and chunks cover.
- **Retrieval and answers** (`Filters`, `Security`, `Retrieval`, `Replies`, `Citations`, `Chat`,
  `ChatGuarantees`). Filters, role-based levels, hybrid ranking, validation of provider replies, citation marks,
  and the answer service with its audit log, from a request to its citations, also against the lifecycle's index.
- **Access tokens** (`Base64Url`, `AccessTokens`). Unpadded base64url (section 5 of RFC 4648, padding omitted as
  section 3.2 allows) with Python's lenient decoder, and tokens that are split at the first dot.

`Documents`, `JsonValues`, `Wrappers` and `Sequences` hold shared values and facts. `dafny verify dfyconfig.toml`
checks everything.

## Assumptions

- Time is in whole milliseconds. The limiter's configuration has a positive limit and window where a theorem says
  `cfg.Valid()`; members of the sorted set are unique and clock readings start at 0. Clients and the
  Redis server read one clock; a client's reading may be old by the time its script runs, and the TTL goes by the
  server's clock.
- Each service call and each worker step of the lifecycle is one atomic step. In the in-process mode that is what
  happens; with Redis it is an assumption. No worker dies between popping a job and finishing it.
- Generated document and job ids are fresh and document ids contain no slash; downloading a missing object fails;
  an upsert is all-or-nothing; deletions, storage and metadata writes do not fail half-way; the point id made from
  document id and chunk index is injective; extracting text from bytes is deterministic.
- One deployment keeps its chunker settings, size limit, queue mode and maximum of attempts (at least 1).
- Signing, JSON and Python's `int` and `str` on JSON values are parameters; JSON brings a token's payload back.
- The configured number of reranked chunks is at least 1, as the rerank request demands (backend/app/reranking/base.py:11).
- The vector store returns distinct matching points, all of them when there are no more than the limit.

## Where the code differs from what one might expect

- The Redis queue pushes and pops at the same end, so it is a stack; `TopIsResolvedFirst` is stated for that.
- The clock is read before the lock is taken. With a stall of up to δ ms only intervals up to window − δ are safe
  for a limit above one; `SafeIntervalsExactly` gives the exact condition.
- For the same reason the sorted set and the deque need not decide alike: one millisecond of lag is enough.
  `AgreementExactly` says when they do.
- The display name of a workspace comes with the caller, and the queue is a stack: after an upload under one name and
  a reindex under another, the older job runs last, and the completed record and the points carry different names.
  `StaleNames` is that run, and `NamesAgreeExactly` says when it cannot happen.
- An empty list of document ids or security levels restricts nothing, as if it were absent.
- Booleans pass the integer and number checks on provider replies, because they are integers in Python.
- The base64 decoder skips foreign characters and also accepts the two characters of the standard alphabet.

## Model

| member | source | states |
|---|---|---|
| `RateLimit.RateLimiter.Check` | backend/app/middleware/rate_limit.py:65-89 | one check drops the entries at least 1000·window_seconds old, admits if fewer than the limit are left, and answers with the remaining slots and the seconds until the first entry leaves; no other deque changes |
| `RateLimit.CheckMeaning` | backend/app/middleware/rate_limit.py:65-99 | the same of the specification functions, in milliseconds and plain sequences |
| `RateLimit.RateLimiter.PruneBucket` | backend/app/middleware/rate_limit.py:91-94 | the popping loop removes exactly the leading entries at or before the cutoff |
| `RateLimit.CeilSeconds` | backend/app/middleware/rate_limit.py:99 | the least number of whole seconds that covers the milliseconds |
| `RateLimit.ClampIsNeverActive` | backend/app/middleware/rate_limit.py:96-99 | whatever the order of timestamps, the `max(1, …)` clamp never changes a value |
| `RateLimitHistory.PruningLosesNothing` | backend/app/middleware/rate_limit.py:69-94 | under a monotone clock a check is admitted exactly when fewer than `limit` of all admissions ever made for its key lie in (now − window, now] |
| `RateLimitHistory.KeysAreIndependent` | backend/app/middleware/rate_limit.py:62-82 | a key's deque and log depend on the checks of that key alone |
| `RateLimitHistory.OneSlot` | backend/app/middleware/rate_limit.py:69-94 | with a limit of one, a check after an admission at t is admitted exactly from t + 1000·window_seconds on |
| `RateLimitHistory.RetryAfterIsExact` | backend/app/middleware/rate_limit.py:72-99 | in any order of readings: after a denial advertising r ≥ 1 seconds every check with a reading up to t + r − 1 s is denied and any at t + r s or later is admitted, also with early polling and other keys in between |
| `RateLimitHistory.WaitWithinWindow` | backend/app/middleware/rate_limit.py:72-99 | under a monotone clock the advertised wait is at most the window |
| `RateLimitHistory.RemainingIsExact` | backend/app/middleware/rate_limit.py:82-89 | after an admission, exactly `remaining` further checks of the key at the same instant are admitted |
| `RateLimitHistory.DeniedDeque` | backend/app/middleware/rate_limit.py:72-80 | in any order of readings a denial leaves exactly `limit` entries, the first still inside the window, and advertises the time until that one leaves |
| `RateLimitHistory.ReplayRemembers` | backend/app/middleware/rate_limit.py:69-94 | in any order of timestamps the admission log is a pruned part, at least one window old, followed by the deque, which never exceeds the limit |
| `RateLimitThreads.BoundHolds` | backend/app/middleware/rate_limit.py:65-94 | in every interleaving of clock readings and locked checks with stalls up to δ, no interval of window − δ holds more than `limit` admissions of a key |
| `RateLimitThreads.OvertakingBreaks` | backend/app/middleware/rate_limit.py:66-68 | a run of threads in which any longer interval is exceeded |
| `RateLimitThreads.SafeIntervalsExactly` | backend/app/middleware/rate_limit.py:65-94 | an interval length is safe in all interleavings if and only if it is at most window − δ, or the limit is one and it is at most the window |
| `RateLimitThreads.WaitUnderStall` | backend/app/middleware/rate_limit.py:72-99 | in every interleaving the advertised wait is at least one second and at most the window plus δ, rounded up |
| `RateLimitThreads.LongestWait` | backend/app/middleware/rate_limit.py:66-80 | a run of threads in which that upper bound is advertised |
| `RateLimitThreads.RetryAfterUnderStall` | backend/app/middleware/rate_limit.py:65-99 | in every interleaving retry-after is exact to the second for the readings of later checks, within these bounds |
| `RedisRateLimit.LowestScore` | backend/app/middleware/rate_limit.py:26 | finds the lowest score of the sorted set |
| `RedisRateLimit.RedisRateLimitStore.Check` | backend/app/middleware/rate_limit.py:121-152 | the script's effect on the key with a window and a TTL of 1000·window_seconds, the TTL by the server's clock, and the decoded decision |
| `RedisRateLimit.RedisRateLimitStore.Eval` | backend/app/middleware/rate_limit.py:19-35 | what the script stores and replies |
| `RedisRateLimit.RedisRateLimitStore.Run` | backend/app/middleware/rate_limit.py:121-152 | one check of a history, with the key dropped before it if the history says so |
| `RedisRateLimit.ExpiryIsHarmless` | backend/app/middleware/rate_limit.py:27-31 | a key whose TTL ran out holds nothing the script would keep |
| `RedisRateLimit.MirrorsPrune` | backend/app/middleware/rate_limit.py:23 | removing the scores up to the cutoff mirrors popping the deque's old entries |
| `RedisRateLimit.HistoriesSimulate` | backend/app/middleware/rate_limit.py:19-35 | the sorted set of each key mirrors its deque after every history in which dropped keys held nothing inside the window and admitted readings are not older than what the deque keeps |
| `RedisRateLimit.RedisAgreesWithMemory` | backend/app/middleware/rate_limit.py:121-152 | on every history whose readings keep their order per key, however they lag, the decoded reply is the in-memory decision in all four values, whichever keys were dropped |
| `RedisRateLimit.OneSlotInRedis` | backend/app/middleware/rate_limit.py:121-152 | the same slot in Redis, on readings in order |
| `RedisRateLimit.OutOfOrderDisagrees` | backend/app/middleware/rate_limit.py:66-68 | for every limit above one, readings that are one millisecond late make Redis admit a check that the deque denies |
| `RedisRateLimit.LateDropDisagrees` | backend/app/middleware/rate_limit.py:27-31 | with a limit of one, so does a late reading just after the TTL |
| `RedisRateLimit.AgreementExactly` | backend/app/middleware/rate_limit.py:19-152 | on all histories with readings late by at most δ, Redis and memory agree if and only if δ is 0, or the limit is one and no key is dropped |
| `Text.StripFacts` | backend/app/parsers/base.py:58-59 | stripping cuts off exactly the outer whitespace |
| `Text.SpacesListed` | backend/app/indexing/chunker.py:14 | the 29 characters that count as whitespace |
| `Text.UnixLinesReplaces` | backend/app/parsers/base.py:59 | a carriage return and line feed become a line feed wherever they stand |
| `Text.UnixLinesLeavesAlone` | backend/app/parsers/base.py:59 | any other text is left alone |
| `Text.NormalizeKeepsWords` | backend/app/indexing/chunker.py:14-16 | the normalised text is single-spaced, splits into the same words and keeps all non-space characters in order |
| `Chunker.Create` | backend/app/indexing/chunker.py:2-11 | accepts exactly the legal configurations, and names which of the three checks an illegal one fails |
| `Chunker.Chunk` | backend/app/indexing/chunker.py:13-32 | the loop terminates and yields the stripped, non-empty windows |
| `Chunker.FindChunkEnd` | backend/app/indexing/chunker.py:34-44 | a window is non-empty, inside the text and not longer than allowed |
| `ChunkerProperties.WindowEndsAtBlank` | backend/app/indexing/chunker.py:34-44 | a window that stops short ends at the last blank in reach, or is full-length because there is none |
| `ChunkerProperties.NextWindow` | backend/app/indexing/chunker.py:22-30 | the next window repeats exactly the configured overlap, or starts one character later if the window is no longer than that, and does not end earlier |
| `ChunkerProperties.WindowsAreLinked` | backend/app/indexing/chunker.py:21-30 | all neighbouring windows overlap in exactly this way, and only the last one reaches the end of the text |
| `ChunkerProperties.EndsNeverMoveBack` | backend/app/indexing/chunker.py:21-30 | starts strictly increase, ends never decrease, at most overlap + 1 windows in a row share an end |
| `ChunkerProperties.WindowsCover` | backend/app/indexing/chunker.py:21-30 | every position lies in a window |
| `ChunkerProperties.WithoutOverlapNothingRepeats` | backend/app/indexing/chunker.py:21-30 | with overlap 0 the windows concatenate back to the normalised text |
| `ChunkerProperties.ChunksConserveText` | backend/app/indexing/chunker.py:13-32 | chunks are trimmed, non-empty, ordered stretches of at most the maximum length, and every non-space character lies in one |
| `ChunkerProperties.ChunksAreWindows` | backend/app/indexing/chunker.py:13-44 | the chunks are the non-empty stripped texts of the one sequence of windows that starts at 0, overlaps exactly as configured, breaks at the last blank in reach and stops with the text |
| `ChunkerProperties.ChunksExactlyForInk` | backend/app/indexing/chunker.py:14-16 | there is a chunk if and only if the text has a non-space character |
| `MetadataStore.InMemoryDocumentMetadataStore.RecordDocument` | backend/app/documents/store.py:41-51 | the list of records acts as a map update under (workspace, document) |
| `MetadataStore.InMemoryDocumentMetadataStore.GetDocument` | backend/app/documents/store.py:53-68 | the first match in the list is the map's entry |
| `MetadataStore.InMemoryDocumentMetadataStore.DeleteDocument` | backend/app/documents/store.py:70-98 | removes the map's entry and returns it |
| `MetadataStore.WithoutFacts` | backend/app/documents/store.py:43-50 | filtering the list by key removes that key from the map and nothing else, and keys stay unique |
| `DocumentServices.VectorStore.UpsertChunks` | backend/app/retrieval/qdrant_store.py:35-70 | the loop builds exactly one point per chunk and overwrites by point id |
| `DocumentServices.VectorStore.DeleteDocument` | backend/app/retrieval/qdrant_store.py:131-148 | removes the points that the workspace and document filter matches |
| `DocumentServices.RedisJobQueue.Enqueue` | backend/app/jobs/redis_queue.py:25-42 | appends the job with the configured maximum, or reports the failure and changes nothing |
| `DocumentServices.RedisJobQueue.Pop` | backend/app/jobs/redis_queue.py:44-56 | takes from the end that enqueueing appends to |
| `DocumentServices.RedisJobQueue.PendingCount` | backend/app/jobs/redis_queue.py:58-59 | the length of the list |
| `DocumentServices.InProcessJobQueue.Enqueue` | backend/app/jobs/inprocess.py:18-34 | runs the pipeline on the spot and reports its outcome |
| `DocumentServices.IndexingPipeline.Run` | backend/app/indexing/pipeline.py:39-61 | download, parse, chunk and upsert; a failure leaves the index as it was |
| `DocumentServices.IndexingJobWorker.ProcessNext` | backend/app/jobs/worker.py:28-54 | on the joint state of the stores it is the atomic worker step, and leaves in the record the status and error of the run |
| `DocumentServices.IndexingJobWorker.OnFailure` | backend/app/jobs/worker.py:56-92 | retries or gives up as the step function says |
| `DocumentServices.IndexingJobWorker.UpdateDocumentStatus` | backend/app/jobs/worker.py:110-146 | rewrites an existing record; a missing one stays missing |
| `DocumentServices.DocumentService.UploadDocument` | backend/app/documents/service.py:40-99 | is the atomic upload step, errors included; refuses what is too large or does not parse, and otherwise stores, dispatches and records it with these fields |
| `DocumentServices.DocumentService.DeleteDocument` | backend/app/documents/service.py:101-132 | is the atomic delete step; not found exactly without such a record in the caller's workspace, refused to non-administrators for confidential and restricted documents, with nothing changed; otherwise removes the document's points, object and record alone |
| `DocumentServices.DocumentService.ReindexDocument` | backend/app/documents/service.py:134-186 | is the atomic reindex step with the same refusals; otherwise checks the stored bytes again, clears the points and dispatches the record's fields under the caller's workspace name |
| `LifecycleContracts.UploadMeaning` | backend/app/documents/service.py:49-97 | every field of the record and the job, the storage key, and the outcome of the dispatch in either mode |
| `LifecycleContracts.DeleteIsGuarded` | backend/app/documents/service.py:107-116 | whom a deletion refuses, in the names of roles and levels |
| `LifecycleContracts.DeleteMeaning` | backend/app/documents/service.py:118-126 | a permitted deletion removes these points, this object and this record and nothing else |
| `LifecycleContracts.ReindexIsGuarded` | backend/app/documents/service.py:140-149 | whom a reindex refuses |
| `LifecycleContracts.ReindexMeaning` | backend/app/documents/service.py:151-184 | the errors of a permitted reindex in their order, and its effect field by field |
| `LifecycleContracts.WorkerMeaning` | backend/app/jobs/worker.py:33-92 | the status, error and chunk count that each outcome of a run leaves in the record, and that no other record changes |
| `LifecycleContracts.FilenameMeaning` | backend/app/documents/service.py:199-201 | what follows the last slash or backslash, stripped, or `document` |
| `LifecycleContracts.ParseMeaning` | backend/app/parsers/base.py:45-59 | parsing yields the stripped extracted text with Unix line ends, and fails exactly if extraction does or no ink is left |
| `LifecycleInvariant.NormalizedFilename` | backend/app/documents/service.py:199-201 | a normalised filename contains no slash and is not empty |
| `LifecycleInvariant.StorageKeysDiffer` | backend/app/storage/minio.py:48 | different documents have different storage keys, even if workspace names contain slashes |
| `LifecycleInvariant.WithoutDocumentFacts` | backend/app/retrieval/qdrant_store.py:131-148 | deleting by workspace and document removes the document's points and no others |
| `LifecycleInvariant.UploadKeepsInv` | backend/app/documents/service.py:40-99 | an upload keeps the invariant of stores, queue and index |
| `LifecycleInvariant.DeleteKeepsInv` | backend/app/documents/service.py:101-132 | a deletion keeps it |
| `LifecycleInvariant.ReindexKeepsInv` | backend/app/documents/service.py:134-186 | a reindex keeps it |
| `LifecycleInvariant.WorkKeepsInv` | backend/app/jobs/worker.py:28-97 | a worker step keeps it, whatever fails |
| `LifecycleTheorems.RunsKeepInv` | backend/app/jobs/worker.py:28-146 | the invariant holds throughout every run of all steps |
| `LifecycleTheorems.NothingIsOrphaned` | backend/app/documents/service.py:118-126 | in every reachable state each point belongs to a recorded document, each record has its object, and a document's points are none or all of its chunks |
| `LifecycleTheorems.StatusesAreAccountedFor` | backend/app/jobs/worker.py:33-92 | between steps nothing is processing, each queued document has a job, and with an empty queue all are completed or failed |
| `LifecycleTheorems.DeletedStaysDeleted` | backend/app/documents/service.py:118-126 | after a deletion no later run brings back metadata, object or points |
| `LifecyclePermissions.ProtectedStays` | backend/app/documents/service.py:113-116 | over every run in which no administrator deletes or reindexes, a confidential or restricted record stays, with nothing but its status, error and chunk count changed |
| `LifecycleNames.PointsCarryLastName` | backend/app/retrieval/qdrant_store.py:35-70 | in every reachable state all points of a document carry one workspace name, that of the document's last successful run |
| `LifecycleNames.NamesFollowRecords` | backend/app/documents/service.py:172-184 | records and points carry the same name if documents are indexed on the spot, or the callers of each workspace bring one name |
| `LifecycleNames.StaleNames` | backend/app/jobs/redis_queue.py:28-46 | for every document that can be uploaded, a run with two names after which a completed record carries the one and its points the other |
| `LifecycleNames.NamesAgreeExactly` | backend/app/documents/service.py:172-184 | completed documents are always indexed under their record's name if and only if documents are indexed on the spot, or each workspace has one name among the callers, or nothing can be uploaded |
| `LifecycleIndex.CompletedMeansIndexed` | backend/app/jobs/worker.py:40-45 | in every reachable state a completed document has at least one chunk, and its points are exactly the chunks of its stored bytes with its record's fields and the name of its last successful run |
| `LifecycleIndex.CompletedMatchesRecord` | backend/app/jobs/worker.py:40-45 | under the condition of NamesFollowRecords that name is the record's, so every field agrees |
| `LifecycleIndex.CompletedIndexIsCanonical` | backend/app/retrieval/qdrant_store.py:35-70 | two runs with the same live documents, all completed, have the same index up to names however they were interleaved, and the same payloads throughout if and only if the documents were last indexed under the same names |
| `LifecycleIndex.IndexIsCanonicalByRecords` | backend/app/retrieval/qdrant_store.py:35-70 | with one name for each workspace the payloads are equal; indexed on the spot, exactly when the records' names are |
| `LifecycleQueue.BudgetFalls` | backend/app/jobs/worker.py:56-83 | each worker step lowers Σ(max_attempts − attempt + 1) over the queue |
| `LifecycleQueue.DrainEmptiesQueue` | backend/app/jobs/worker.py:28-97 | with no new jobs that many worker steps empty the queue |
| `LifecycleQueue.TopIsResolvedFirst` | backend/app/jobs/redis_queue.py:28-46 | the newest job is worked through all its attempts before any older one is touched |
| `LifecycleQueue.RetriesAreBounded` | backend/app/jobs/worker.py:56-92 | in every reachable state each job has run at attempts 1..k with k at most the maximum, only the last run settles it, with completed exactly on success and failed exactly at the last attempt or a failed re-enqueue |
| `LifecycleQueue.WorkerWritesWhatItLogs` | backend/app/jobs/worker.py:33-92 | the status of the document is the one that the run wrote, if it still has a record; for a deleted one nothing changes in the index |
| `LifecycleQueue.CleanDrainCompletes` | backend/app/jobs/worker.py:28-54 | once services stop failing, draining completes and indexes every document that was not given up before |
| `Filters.FilterMeaning` | backend/app/retrieval/filters.py:13-44 | the built conditions match exactly the points that the filter means |
| `Security.ValidateLevels` | backend/app/documents/security.py:41-50 | validates in order, removes repetitions, and fails exactly on an invalid level |
| `Security.ValidLevels` | backend/app/documents/security.py:25-38 | a level is one of the four names with whitespace around it, and an empty one means internal |
| `Security.RoleLevels` | backend/app/documents/security.py:53-56 | an administrator handles all four levels, everybody else general and internal |
| `Security.WhoMayHandle` | backend/app/documents/security.py:59-64 | a document's level is refused exactly to those who do not handle it |
| `Security.FilterLevelsForRole` | backend/app/documents/security.py:67-90 | unrestricted only for an administrator who asks for nothing; otherwise within the role's levels and equal to what was asked; an error exactly for a level the role may not see |
| `Retrieval.LexicalScore` | backend/app/retrieval/retriever.py:137-143 | the share of the query's terms in the chunk: 0 exactly when they share none, 1 exactly when the chunk has them all |
| `Retrieval.Deduplicate` | backend/app/retrieval/retriever.py:89-91 | keeps the first chunk under each key and loses no key |
| `Retrieval.HybridRetrieve` | backend/app/retrieval/retriever.py:65-112 | the head of the one ranking of the candidates: higher scores first, ties by filename, chunk index and document id; whatever is left out scores at most as much; and every score is the rounded weighted sum |
| `Retrieval.RankingIsUnique` | backend/app/retrieval/retriever.py:104-111 | a set of chunks has at most one strictly sorted arrangement |
| `Retrieval.SortRanks` | backend/app/retrieval/retriever.py:104-111 | sorting chunks with distinct keys gives that arrangement |
| `Retrieval.StrLessMeaning` | backend/app/retrieval/retriever.py:105-110 | the order on strings is by code points at the first difference, shorter first |
| `Retrieval.RankingIsBestFirst` | backend/app/retrieval/retriever.py:104-112 | the head of a ranking is sorted in these words and leaves out nothing better |
| `Retrieval.CandidateIsBlended` | backend/app/retrieval/retriever.py:93-103 | a candidate is a chunk of one of the lists with the dense weight on its dense score, or zero, and the lexical weight on its share of terms |
| `Retrieval.RankingIsCanonical` | backend/app/retrieval/retriever.py:72-112 | the result does not depend on the order of either list that the store returned |
| `Retrieval.RankingIsBruteForce` | backend/app/retrieval/retriever.py:72-112 | when no more chunks match than the candidate limit, the candidates are all matching chunks scored directly |
| `Replies.ParseRerankReply` | backend/app/reranking/bge_client.py:63-97 | accepts exactly sound replies, selects the named chunks in order, and otherwise reports the first fault |
| `Replies.AcceptedRepliesSelect` | backend/app/reranking/bge_client.py:72-97 | an accepted reply never repeats a chunk and never invents one |
| `Replies.AcceptedMeaning` | backend/app/reranking/bge_client.py:72-95 | the k-th result is the chunk at the index that the k-th item says, with the score that it says |
| `Replies.IndexMeaning` | backend/app/reranking/bge_client.py:76-79 | an index is an integer below the count under `index`, true and false counting as 1 and 0 |
| `Replies.NumberMeaning` | backend/app/reranking/bge_client.py:82 | what counts as a number, and which |
| `Replies.PreserveScores` | backend/app/reranking/base.py:28-33 | keeps chunks, order and scores |
| `Replies.ParseEmbeddingReply` | backend/app/indexing/embedder.py:100-136 | accepts exactly sound replies, position i gets the vector of the item with index i, otherwise the first fault; the incomplete error is never returned |
| `Replies.EveryPositionNamed` | backend/app/indexing/embedder.py:106-134 | n sound items name each of the n positions, by the pigeonhole principle |
| `Replies.VectorMeaning` | backend/app/indexing/embedder.py:121-131 | a vector is the list under `embedding`, of the right length and of numbers only, in its order |
| `Citations.ExtractCitationIds` | backend/app/chat/service.py:262-271 | exactly the numbers 1..max that the text cites, each once, in order of first citation |
| `Citations.ScanMissesNothing` | backend/app/chat/service.py:265 | continuing after a match finds the mark at every position |
| `Citations.WrittenMarksAreCited` | backend/app/chat/service.py:265-266 | `[n]` written in decimal anywhere in an answer cites n |
| `Citations.CitedIsWritten` | backend/app/chat/service.py:265-266 | and conversely: a text cites n exactly if digits of value n stand between brackets in it |
| `Citations.IdsInReadingOrder` | backend/app/chat/service.py:262-271 | ids come in the order in which the text first cites them |
| `Citations.NumeralIsPlain` | backend/app/chat/service.py:226 | the numbers of the prompt are written in ASCII digits without leading zeros |
| `Citations.NumberIsPositional` | backend/app/chat/service.py:266 | digits count by their decimal place |
| `Chat.PromptNumbersChunks` | backend/app/chat/service.py:224-233 | the prompt shows every chunk under its number, with its filename, index and text |
| `Chat.PromptAsks` | backend/app/chat/service.py:229-230 | the prompt asks the question |
| `Chat.Retrieve` | backend/app/retrieval/retriever.py:34-112 | returns the store's own list in dense mode and the head of the hybrid ranking otherwise |
| `Chat.Rerank` | backend/app/reranking/bge_client.py:23-97 | fails exactly when no reranking is acceptable |
| `Chat.BuildCitations` | backend/app/chat/service.py:236-259 | one citation per id, of the chunk shown under it |
| `Chat.SupportedSelects` | backend/app/chat/service.py:274-287 | keeps exactly the chunks whose score reaches the threshold |
| `Chat.SupportedKeepsOrder` | backend/app/chat/service.py:279-283 | in their order |
| `Chat.ShownIsGrounded` | backend/app/chat/service.py:68-110 | what the prompt shows are distinct, relevant chunks of the index that the filter lets through, at most the final top k |
| `Chat.CitationsOfAnswer` | backend/app/chat/service.py:120-148 | a response cites exactly the shown chunks that its text cites, and is the refusal if there are none |
| `Chat.FilterProtects` | backend/app/retrieval/filters.py:13-44 | the filter of a request with granted levels matches exactly what the caller may see |
| `Chat.AnswersAreGrounded` | backend/app/chat/service.py:62-156 | for any role, request, index, provider reply and model text, every citation names under its prompt number a distinct, relevant chunk in the caller's workspace, the requested documents and the allowed levels |
| `Chat.RefusalIsRecognizable` | backend/app/chat/service.py:158-182 | a response cites nothing exactly when its text is the fixed refusal, signed by the grounding policy |
| `Chat.ResponseFields` | backend/app/chat/service.py:86-182 | chunk count, usage, model and text of the response on every path |
| `Chat.ChatService.Answer` | backend/app/chat/service.py:62-156 | the outcome of every path; a response adds one audit event with the caller's workspace, the request and its limits, and the same citations element by element; an error adds none |
| `Chat.ChatService.RecordAuditEvent` | backend/app/chat/service.py:184-221 | appends the one event of the response, field by field |
| `Chat.ChatService.AnswerQuestion` | backend/app/chat/router.py:77-95 | levels are restricted before answering, so that every citation is permitted to the caller; refuses exactly for levels the role may not see; and the audit event holds the same citations |
| `ChatGuarantees.NothingPermittedIsWithheld` | backend/app/chat/service.py:68-107 | the converse of grounding: with the score-preserving reranker, and no more matching chunks than may be shown, each is retrieved and shown exactly when its score reaches the threshold |
| `ChatGuarantees.HybridIsBruteForce` | backend/app/retrieval/retriever.py:72-112 | when no more chunks match than the candidate limit, hybrid retrieval returns the best of all matching chunks, best first |
| `ChatGuarantees.ReachableIndexIsKeyed` | backend/app/retrieval/qdrant_store.py:35-70 | in every reachable state points lie under their own document id and chunk index |
| `ChatGuarantees.CitedChunksAreStored` | backend/app/chat/service.py:236-259 | over all lifecycle runs, a cited chunk is a chunk of the stored bytes of a recorded document in the caller's workspace, under the record's filename and level |
| `ChatGuarantees.DeletedIsNeverCited` | backend/app/documents/service.py:118-126 | after a deletion no response on any later index cites the document |
| `Base64Url.EncodeFacts` | backend/app/auth/service.py:223-224 | stripping the padding leaves the unpadded encoding, which is ASCII without pad character or dot |
| `Base64Url.CharsAreAlphabet` | backend/app/auth/service.py:224 | the URL-safe alphabet by code points |
| `Base64Url.ValuesAreAlphabet` | backend/app/auth/service.py:229 | the decoder knows it and the plus and the slash |
| `Base64Url.GroupIsNumber` | backend/app/auth/service.py:224 | the six-bit values of a group are the same number as its bytes |
| `Base64Url.MissingPadding` | backend/app/auth/service.py:228 | `-len % 4` restores exactly the padding that was stripped |
| `Base64Url.DecodeUndoesEncode` | backend/app/auth/service.py:223-229 | round trip for every byte string |
| `Base64Url.EncodeIsInjective` | backend/app/auth/service.py:223-224 | different byte strings have different encodings |
| `Base64Url.AlphabetDecodes` | backend/app/auth/service.py:227-229 | a string over the alphabet decodes unless its length is one more than a multiple of four |
| `Base64Url.ForeignIsSkipped` | backend/app/auth/service.py:229 | every character that is neither in the alphabet nor padding is skipped |
| `AccessTokens.SplitsAtFirstDot` | backend/app/auth/service.py:108 | the split recovers a dot-free prefix and everything after the first dot |
| `AccessTokens.TokenRoundTrip` | backend/app/auth/service.py:88-131 | a created token gives back the same identity, without the password hash, at every second up to its expiry and is expired at every later one |
| `AccessTokens.TokenLifetime` | backend/app/auth/service.py:89-98 | in milliseconds a token lives for its lifetime and less than one second more |
| `AccessTokens.AcceptedTokensAreSigned` | backend/app/auth/service.py:106-118 | whatever is accepted is a dot-free payload, a dot and the payload's own signature |
| `AccessTokens.ForgedTokensFail` | backend/app/auth/service.py:107-113 | a token without a dot or with another signature than the payload's own is refused as such |
| `AccessTokens.TokenParts` | backend/app/auth/service.py:89-104 | a token is the encoded payload with the expiry second, a dot, and the encoded signature |
| `AccessTokens.PayloadFields` | backend/app/auth/service.py:92-99 | the six fields of a payload |
| `AccessTokens.AcceptedPayload` | backend/app/auth/service.py:120-131 | what an accepted payload must hold and what is read from it, with member as the default role |

## Left out

- HTTP routing, middleware dispatch, headers, health probes, settings, logging and operation events.
- The Redis, Qdrant, MinIO and Postgres clients and all SQL: the stores are lists, maps and sorted sets.
- Extraction of text from PDF, DOCX, Markdown and plain files, and the choice of parser by extension: one deterministic function.
- HMAC, JSON, SHA-256, uuid5 and password hashing: parameters, with a round trip or injectivity assumed where used.
- Embedding values and cosine scores: the scores of a search are whatever the store returns; floating-point rounding and NaN are not modelled, numbers are reals.
- Tokenizing by regular expression and rounding to six digits: parameters of hybrid scoring.
- Worker crashes, interleavings finer than a service call or a worker step, and clock skew between hosts.
- Content types, previews, character counts, upload times and the sorted listing of documents; snippets and answer previews; request ids of audit events.
- The retry loop of the model client, and its reply format: its answer to a prompt is a text or a failure.
- User registration, login, API keys, CSV export, audit filtering and the frontend.
- `int` of a citation number beyond Python's limit on digits, where the source raises.
- Points without a `security_level`, which a search reports as `internal` although a filter by level does not match them: every point here was written with a level.
- Replies.ParseRerankReply: a reply that is valid JSON but no object is reported as one without results, where the source raises an attribute error; the same holds for embedding replies.
- AccessTokens.ValidateToken: a payload with missing or wrongly typed fields is one error kind, where the source raises the error of the failing conversion.
- RateLimit.RateLimiter.Check: the lock itself is modelled only as the atomicity of a step in RateLimitThreads.
- RedisRateLimit.RedisRateLimitStore.Check: an unreachable Redis, which the source turns into an unavailable error, changes nothing and is not modelled; hashing of the key is taken to be injective.
