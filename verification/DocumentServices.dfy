/**
 The services of the lifecycle as they run: each one updates the stores it holds, step by step,
 and is tied to the atomic step on the state that the stores together make up.
 */
module DocumentServices {
  import opened Documents
  import opened Filters
  import opened Lifecycle
  import opened LifecycleContracts
  import opened MetadataStore
  import opened Wrappers
  import Chunker
  import Security

  // ----- stores -----

  class StorageService {
    var objects: map<string, Bytes>

    constructor ()
      ensures objects == map[]
    {
      objects := map[];
    }

    method UploadDocument(workspaceId: string, documentId: string, filename: string, data: Bytes) returns (key: string)
      modifies this
      ensures key == StorageKey(workspaceId, documentId, filename)
      ensures objects == old(objects)[key := data]
    {
      key := StorageKey(workspaceId, documentId, filename);
      objects := objects[key := data];
    }

    method DownloadDocument(key: string) returns (r: Option<Bytes>)
      ensures r == if key in objects then Some(objects[key]) else None
    {
      r := if key in objects then Some(objects[key]) else None;
    }

    method DeleteDocument(key: string)
      modifies this
      ensures objects == old(objects) - {key}
    {
      objects := objects - {key};
    }
  }

  class VectorStore {
    var points: map<PointId, Point>

    constructor ()
      ensures points == map[]
    {
      points := map[];
    }

    /** Builds one point per chunk and upserts them together. */
    method UpsertChunks(job: Job, parserName: string, chunks: seq<string>)
      modifies this
      ensures points == old(points) + NewPoints(job, parserName, chunks)
    {
      var batch: map<PointId, Point> := map[];
      for index := 0 to |chunks|
        invariant batch == NewPoints(job, parserName, chunks[..index])
      {
        batch := batch[PointId(job.documentId, index) :=
          Point(job.workspaceId, job.workspaceName, job.documentId, job.uploadedBy, job.securityLevel,
                job.filename, parserName, index, chunks[index])];
      }
      assert chunks[..|chunks|] == chunks;
      points := points + batch;
    }

    method DeleteDocument(workspaceId: string, documentId: string)
      modifies this
      ensures points == WithoutDocument(old(points), workspaceId, documentId)
    {
      var filter := BuildQdrantFilter(RetrievalFilter(workspaceId, Some([documentId]), None));
      points := map id | id in points && !Matches(filter, points[id]) :: points[id];
    }
  }

  // ----- queues -----

  /** The Redis list: enqueueing appends at the right, and workers pop from the right. */
  class RedisJobQueue {
    const maxAttempts: int
    var list: seq<Job>

    constructor (maxAttempts: int)
      ensures this.maxAttempts == maxAttempts && list == []
    {
      this.maxAttempts := maxAttempts;
      list := [];
    }

    method Enqueue(job: Job, fault: Option<string>) returns (d: Dispatch)
      modifies this
      ensures fault.Some? ==> list == old(list) && d == Dispatch(job.jobId, Failed, 0, fault)
      ensures fault.None? ==>
        list == old(list) + [job.(maxAttempts := maxAttempts)] && d == Dispatch(job.jobId, Queued, 0, None)
    {
      var stamped := job.(maxAttempts := maxAttempts);
      if fault.Some? {
        return Dispatch(job.jobId, Failed, 0, fault);
      }
      list := list + [stamped];
      d := Dispatch(job.jobId, Queued, 0, None);
    }

    method Pop() returns (job: Option<Job>)
      modifies this
      ensures old(list) == [] ==> job.None? && list == []
      ensures old(list) != [] ==> job.Some? && old(list) == list + [job.value]
    {
      if list == [] {
        return None;
      }
      job := Some(list[|list| - 1]);
      list := list[..|list| - 1];
    }

    method PendingCount() returns (n: nat)
      ensures n == |list|
    {
      n := |list|;
    }
  }

  // ----- pipeline -----

  class IndexingPipeline {
    const env: Env
    const storage: StorageService
    const vectors: VectorStore

    constructor (env: Env, storage: StorageService, vectors: VectorStore)
      ensures this.env == env && this.storage == storage && this.vectors == vectors
    {
      this.env := env;
      this.storage := storage;
      this.vectors := vectors;
    }

    /** The run of a job; `fault` is the failure, if any, of a service that it calls before the upsert takes effect. */
    method Run(job: Job, fault: Option<string>) returns (r: Result<nat, string>)
      requires env.Valid()
      modifies vectors
      ensures var spec := RunPipeline(env, storage.objects, old(vectors.points), job, fault);
        if spec.Ok? then r == Ok(spec.value.chunkCount) && vectors.points == spec.value.points
        else r == Err(spec.error) && vectors.points == old(vectors.points)
    {
      var data := storage.DownloadDocument(job.storageKey);
      if data.None? {
        return Err(NO_SUCH_OBJECT);
      }
      var parsed := Parse(env, job.filename, data.value);
      if parsed.Err? {
        return Err(parsed.error);
      }
      var chunks := Chunker.Chunk(env.chunker, parsed.value.text);
      if fault.Some? {
        return Err(fault.value);
      }
      vectors.UpsertChunks(job, parsed.value.parserName, chunks);
      r := Ok(|chunks|);
    }
  }

  /** The state that the stores together make up. */
  ghost function Snapshot(storage: StorageService, queue: RedisJobQueue, vectors: VectorStore,
                          metadata: InMemoryDocumentMetadataStore): State
    reads storage, queue, vectors, metadata
  {
    State(storage.objects, queue.list, vectors.points, metadata.View())
  }

  // ----- the worker -----

  class IndexingJobWorker {
    const queue: RedisJobQueue
    const pipeline: IndexingPipeline
    const metadata: InMemoryDocumentMetadataStore

    constructor (queue: RedisJobQueue, pipeline: IndexingPipeline, metadata: InMemoryDocumentMetadataStore)
      ensures this.queue == queue && this.pipeline == pipeline && this.metadata == metadata
    {
      this.queue := queue;
      this.pipeline := pipeline;
      this.metadata := metadata;
    }

    ghost predicate Valid()
      reads metadata
    {
      pipeline.env.Valid() && metadata.Valid() && queue.maxAttempts == pipeline.env.maxAttempts
    }

    ghost function State(): State
      reads pipeline.storage, queue, pipeline.vectors, metadata
    {
      Snapshot(pipeline.storage, queue, pipeline.vectors, metadata)
    }

    method ProcessNext(faults: Faults) returns (worked: bool)
      requires Valid()
      modifies queue, pipeline.vectors, metadata
      ensures Valid()
      ensures (State(), worked) == Lifecycle.ProcessNext(pipeline.env, old(State()), faults)
      ensures old(State()).queue != [] ==> Works(pipeline.env, old(State()), faults, State())
    {
      if State().queue != [] {
        WorkerMeaning(pipeline.env, State(), faults);
      }
      var popped := queue.Pop();
      if popped.None? {
        return false;
      }
      var job := popped.value;
      assert old(queue.list)[..|old(queue.list)| - 1] == queue.list;
      UpdateDocumentStatus(job, Processing, None, None);
      var result := pipeline.Run(job, faults.indexing);
      if result.Err? {
        OnFailure(job, result.error, faults);
        return true;
      }
      UpdateDocumentStatus(job, Completed, None, Some(result.value));
      worked := true;
    }

    method OnFailure(job: Job, reason: string, faults: Faults)
      requires Valid()
      modifies queue, metadata
      ensures Valid()
      ensures State() == HandleFailure(pipeline.env, old(State()), job, reason, faults)
    {
      var because := reason;
      if job.attempt < job.maxAttempts {
        var retry := job.(attempt := job.attempt + 1);
        var dispatch := queue.Enqueue(retry, faults.enqueue);
        if dispatch.status == Queued {
          UpdateDocumentStatus(job, Queued, Some(reason), None);
          return;
        }
        if dispatch.failure.Some? && dispatch.failure.value != "" {
          because := dispatch.failure.value;
        }
      }
      UpdateDocumentStatus(job, Failed, Some(because), Some(0));
    }

    method UpdateDocumentStatus(job: Job, status: Status, error: Option<string>, chunkCount: Option<nat>)
      requires Valid()
      modifies metadata
      ensures Valid()
      ensures State() == SetStatus(old(State()), job, status, error, chunkCount)
    {
      var record := metadata.GetDocument(job.workspaceId, job.documentId);
      if record.None? {
        return;
      }
      var updated := record.value.(status := status, error := error);
      if chunkCount.Some? {
        updated := updated.(chunkCount := chunkCount.value);
      }
      metadata.RecordDocument(updated);
    }
  }

  // ----- the API side -----

  /** The queue that does a job on the spot, with the pipeline as its processor. */
  class InProcessJobQueue {
    const processor: IndexingPipeline

    constructor (processor: IndexingPipeline)
      ensures this.processor == processor
    {
      this.processor := processor;
    }

    method Enqueue(job: Job, fault: Option<string>) returns (d: Dispatch)
      requires processor.env.Valid()
      modifies processor.vectors
      ensures var r := RunPipeline(processor.env, processor.storage.objects, old(processor.vectors.points), job, fault);
        && processor.vectors.points == (if r.Ok? then r.value.points else old(processor.vectors.points))
        && d == if r.Ok? then Dispatch(job.jobId, Completed, r.value.chunkCount, None)
                else Dispatch(job.jobId, Failed, 0, Some(r.error))
    {
      var result := processor.Run(job, fault);
      if result.Err? {
        return Dispatch(job.jobId, Failed, 0, Some(result.error));
      }
      d := Dispatch(job.jobId, Completed, result.value, None);
    }
  }

  class DocumentService {
    const env: Env
    const storage: StorageService
    const redis: RedisJobQueue
    const inProcess: InProcessJobQueue
    const metadata: InMemoryDocumentMetadataStore
    const vectors: VectorStore

    constructor (env: Env, storage: StorageService, redis: RedisJobQueue, inProcess: InProcessJobQueue,
                 metadata: InMemoryDocumentMetadataStore, vectors: VectorStore)
      ensures this.env == env && this.storage == storage && this.redis == redis && this.inProcess == inProcess
        && this.metadata == metadata && this.vectors == vectors
    {
      this.env := env;
      this.storage := storage;
      this.redis := redis;
      this.inProcess := inProcess;
      this.metadata := metadata;
      this.vectors := vectors;
    }

    /** The in-process queue works on the same stores, and the queue is configured as the deployment says. */
    ghost predicate Valid()
      reads metadata
    {
      && env.Valid() && metadata.Valid() && redis.maxAttempts == env.maxAttempts
      && inProcess.processor.env == env && inProcess.processor.storage == storage && inProcess.processor.vectors == vectors
    }

    ghost function State(): State
      reads storage, redis, vectors, metadata
    {
      Snapshot(storage, redis, vectors, metadata)
    }

    /** Hands a job to the configured queue. */
    method Dispatch(job: Job, faults: Faults) returns (d: Dispatch)
      requires Valid()
      modifies redis, vectors
      ensures Valid()
      ensures (State(), d) == Enqueue(env, old(State()), job, faults)
    {
      if env.mode == Redis {
        d := redis.Enqueue(job, faults.enqueue);
      } else {
        d := inProcess.Enqueue(job, faults.indexing);
      }
    }

    method UploadDocument(ctx: Context, filename: string, data: Bytes, securityLevel: string,
                          documentId: string, jobId: string, faults: Faults) returns (r: Result<Record, ServiceError>)
      requires Valid()
      modifies storage, redis, vectors, metadata
      ensures Valid()
      ensures (State(), r) == Upload(env, old(State()), ctx, filename, data, securityLevel, documentId, jobId, faults)
      ensures Uploads(env, old(State()), ctx, filename, data, securityLevel, documentId, jobId, faults, State(), r)
    {
      UploadMeaning(env, State(), ctx, filename, data, securityLevel, documentId, jobId, faults);
      var name := NormalizeFilename(filename);
      if |data| > env.maxDocumentBytes {
        return Err(DocumentTooLarge);
      }
      var parsed := Parse(env, name, data);
      if parsed.Err? {
        return Err(Unprocessable(parsed.error));
      }
      var key := storage.UploadDocument(ctx.workspaceId, documentId, name, data);
      var dispatch := Dispatch(
        Job(jobId, ctx.workspaceId, ctx.workspaceName, documentId, name, key, ctx.employeeId, securityLevel, 1, 3), faults);
      var record := Record(documentId, ctx.workspaceId, ctx.workspaceName, ctx.employeeId, securityLevel, name,
                           parsed.value.parserName, key, dispatch.jobId, dispatch.status, dispatch.failure, dispatch.chunkCount);
      metadata.RecordDocument(record);
      r := Ok(record);
    }

    /** The record of a document that the caller may work on. */
    method FindPermitted(ctx: Context, documentId: string) returns (r: Result<Record, ServiceError>)
      ensures r == Authorize(State(), ctx, documentId)
      ensures r.Ok? ==> r.value.Key() == DocKey(ctx.workspaceId, documentId)
    {
      var record := metadata.GetDocument(ctx.workspaceId, documentId);
      if record.None? {
        return Err(DocumentNotFound);
      }
      var refused := Security.LevelError(ctx.role, record.value.securityLevel);
      if refused.Some? {
        return Err(NotPermitted(refused.value));
      }
      r := Ok(record.value);
    }

    method DeleteDocument(ctx: Context, documentId: string) returns (r: Result<(), ServiceError>)
      requires Valid()
      modifies storage, vectors, metadata
      ensures Valid()
      ensures (State(), r) == Delete(old(State()), ctx, documentId)
      ensures Guarded(old(State()), ctx, documentId, FailureOf(r), State())
      ensures Deletes(old(State()), ctx, documentId, State(), r)
    {
      DeleteIsGuarded(State(), ctx, documentId);
      DeleteMeaning(State(), ctx, documentId);
      var record := FindPermitted(ctx, documentId);
      if record.Err? {
        return Err(record.error);
      }
      vectors.DeleteDocument(ctx.workspaceId, documentId);
      storage.DeleteDocument(record.value.storageKey);
      var _ := metadata.DeleteDocument(ctx.workspaceId, documentId);
      r := Ok(());
    }

    method ReindexDocument(ctx: Context, documentId: string, jobId: string, faults: Faults)
      returns (r: Result<Record, ServiceError>)
      requires Valid()
      modifies redis, vectors, metadata
      ensures Valid()
      ensures (State(), r) == Reindex(env, old(State()), ctx, documentId, jobId, faults)
      ensures Guarded(old(State()), ctx, documentId, FailureOf(r), State())
      ensures Reindexes(env, old(State()), ctx, documentId, jobId, faults, State(), r)
    {
      ReindexIsGuarded(env, State(), ctx, documentId, jobId, faults);
      FirstIsLookup(metadata.records, DocKey(ctx.workspaceId, documentId));
      ReindexMeaning(env, State(), ctx, documentId, jobId, faults);
      var found := FindPermitted(ctx, documentId);
      if found.Err? {
        return Err(found.error);
      }
      var record := found.value;
      var data := storage.DownloadDocument(record.storageKey);
      if data.None? {
        return Err(MissingObject);
      }
      if |data.value| > env.maxDocumentBytes {
        return Err(DocumentTooLarge);
      }
      var parsed := Parse(env, record.filename, data.value);
      if parsed.Err? {
        return Err(Unprocessable(parsed.error));
      }
      vectors.DeleteDocument(ctx.workspaceId, documentId);
      var dispatch := Dispatch(
        Job(jobId, ctx.workspaceId, ctx.workspaceName, documentId, record.filename, record.storageKey,
            record.uploadedBy, record.securityLevel, 1, 3), faults);
      var updated := record.(workspaceName := ctx.workspaceName, parser := parsed.value.parserName, jobId := dispatch.jobId,
                             status := dispatch.status, error := dispatch.failure, chunkCount := dispatch.chunkCount);
      metadata.RecordDocument(updated);
      r := Ok(updated);
    }
  }
}
