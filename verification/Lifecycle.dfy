/**
 The indexing lifecycle of documents as atomic steps on one state: object storage, job queue,
 chunk index and metadata.  Generated identifiers and the failures of external services are
 inputs of a step.
 */
module Lifecycle {
  import opened Documents
  import opened Filters
  import opened Security
  import opened Text
  import opened Wrappers
  import Chunker

  datatype QueueMode = InProcess | Redis

  datatype Extracted = Extracted(parserName: string, text: string)

  /** A deployment: what does not change while it runs. */
  datatype Env = Env(
    extract: (string, Bytes) -> Result<Extracted, string>,  // chooses a parser by filename and extracts the raw text
    chunker: Chunker.Config,
    maxDocumentBytes: int,
    maxAttempts: int,
    mode: QueueMode) {

    predicate Valid() {
      chunker.Legal() && maxAttempts >= 1
    }
  }

  datatype State = State(
    objects: map<string, Bytes>, queue: seq<Job>, points: map<PointId, Point>, records: map<DocKey, Record>)

  /** The failures that external services inject into a step: while indexing, and while enqueueing. */
  datatype Faults = Faults(indexing: Option<string>, enqueue: Option<string>)

  datatype ServiceError =
    | DocumentTooLarge
    | Unprocessable(reason: string)
    | DocumentNotFound
    | NotPermitted(error: SecurityError)
    | MissingObject

  // ----- parsing and chunking -----

  const EMPTY_DOCUMENT := "Document is empty after parsing."

  /** Parses a document; a text without ink is an error. */
  function Parse(env: Env, filename: string, data: Bytes): Result<Extracted, string> {
    match env.extract(filename, data)
    case Err(reason) => Err(reason)
    case Ok(raw) =>
      var text := Strip(UnixLines(raw.text));
      if text == "" then Err(EMPTY_DOCUMENT) else Ok(Extracted(raw.parserName, text))
  }

  // ----- names -----

  function StorageKey(workspaceId: string, documentId: string, filename: string): string {
    workspaceId + "/" + documentId + "/" + filename
  }

  function BackToForward(s: string): string {
    if s == "" then "" else [if s[0] == '\\' then '/' else s[0]] + BackToForward(s[1..])
  }

  /** What follows the last slash. */
  function AfterLastSlash(s: string): string {
    if s == "" then ""
    else if s[|s| - 1] == '/' then ""
    else AfterLastSlash(s[..|s| - 1]) + [s[|s| - 1]]
  }

  function NormalizeFilename(filename: string): string {
    var name := Strip(AfterLastSlash(BackToForward(filename)));
    if name == "" then "document" else name
  }

  // ----- the chunk index -----

  function NewPoints(job: Job, parser: string, chunks: seq<string>): map<PointId, Point> {
    map i: nat | i < |chunks| :: PointId(job.documentId, i) :=
      Point(job.workspaceId, job.workspaceName, job.documentId, job.uploadedBy, job.securityLevel,
            job.filename, parser, i, chunks[i])
  }

  function WithoutDocument(points: map<PointId, Point>, workspaceId: string, documentId: string): map<PointId, Point> {
    map id | id in points
      && !Matches(BuildQdrantFilter(RetrievalFilter(workspaceId, Some([documentId]), None)), points[id]) :: points[id]
  }

  // ----- the pipeline -----

  datatype Indexed = Indexed(points: map<PointId, Point>, chunkCount: nat)

  const NO_SUCH_OBJECT := "object not found"

  /** Downloads, parses, chunks, embeds and upserts; every failure comes before the upsert takes effect. */
  function RunPipeline(env: Env, objects: map<string, Bytes>, points: map<PointId, Point>, job: Job, fault: Option<string>)
    : Result<Indexed, string>
    requires env.Valid()
  {
    if job.storageKey !in objects then Err(NO_SUCH_OBJECT)
    else
      match Parse(env, job.filename, objects[job.storageKey])
      case Err(reason) => Err(reason)
      case Ok(parsed) =>
        var chunks := Chunker.Chunks(env.chunker, parsed.text);
        if fault.Some? then Err(fault.value)
        else Ok(Indexed(points + NewPoints(job, parsed.parserName, chunks), |chunks|))
  }

  // ----- the queues -----

  function EnqueueRedis(env: Env, s: State, job: Job, faults: Faults): (State, Dispatch) {
    if faults.enqueue.Some? then (s, Dispatch(job.jobId, Failed, 0, faults.enqueue))
    else (s.(queue := s.queue + [job.(maxAttempts := env.maxAttempts)]), Dispatch(job.jobId, Queued, 0, None))
  }

  function EnqueueInProcess(env: Env, s: State, job: Job, faults: Faults): (State, Dispatch)
    requires env.Valid()
  {
    match RunPipeline(env, s.objects, s.points, job, faults.indexing)
    case Err(reason) => (s, Dispatch(job.jobId, Failed, 0, Some(reason)))
    case Ok(indexed) => (s.(points := indexed.points), Dispatch(job.jobId, Completed, indexed.chunkCount, None))
  }

  function Enqueue(env: Env, s: State, job: Job, faults: Faults): (State, Dispatch)
    requires env.Valid()
  {
    if env.mode == Redis then EnqueueRedis(env, s, job, faults) else EnqueueInProcess(env, s, job, faults)
  }

  // ----- the API side -----

  function Upload(env: Env, s: State, ctx: Context, filename: string, data: Bytes, level: string,
                  documentId: string, jobId: string, faults: Faults): (State, Result<Record, ServiceError>)
    requires env.Valid()
  {
    var name := NormalizeFilename(filename);
    if |data| > env.maxDocumentBytes then (s, Err(DocumentTooLarge))
    else
      match Parse(env, name, data)
      case Err(reason) => (s, Err(Unprocessable(reason)))
      case Ok(parsed) =>
        var key := StorageKey(ctx.workspaceId, documentId, name);
        var job := Job(jobId, ctx.workspaceId, ctx.workspaceName, documentId, name, key, ctx.employeeId, level, 1, 3);
        var (s', d) := Enqueue(env, s.(objects := s.objects[key := data]), job, faults);
        var record := Record(documentId, ctx.workspaceId, ctx.workspaceName, ctx.employeeId, level, name,
                             parsed.parserName, key, d.jobId, d.status, d.failure, d.chunkCount);
        (s'.(records := s'.records[record.Key() := record]), Ok(record))
  }

  /** The record a caller may work on. */
  function Authorize(s: State, ctx: Context, documentId: string): Result<Record, ServiceError> {
    var key := DocKey(ctx.workspaceId, documentId);
    if key !in s.records then Err(DocumentNotFound)
    else
      match LevelError(ctx.role, s.records[key].securityLevel)
      case Some(e) => Err(NotPermitted(e))
      case None => Ok(s.records[key])
  }

  function Delete(s: State, ctx: Context, documentId: string): (State, Result<(), ServiceError>) {
    match Authorize(s, ctx, documentId)
    case Err(e) => (s, Err(e))
    case Ok(record) =>
      (s.(points := WithoutDocument(s.points, ctx.workspaceId, documentId),
          objects := s.objects - {record.storageKey},
          records := s.records - {DocKey(ctx.workspaceId, documentId)}), Ok(()))
  }

  function Reindex(env: Env, s: State, ctx: Context, documentId: string, jobId: string, faults: Faults)
    : (State, Result<Record, ServiceError>)
    requires env.Valid()
  {
    match Authorize(s, ctx, documentId)
    case Err(e) => (s, Err(e))
    case Ok(record) =>
      if record.storageKey !in s.objects then (s, Err(MissingObject))
      else if |s.objects[record.storageKey]| > env.maxDocumentBytes then (s, Err(DocumentTooLarge))
      else
        match Parse(env, record.filename, s.objects[record.storageKey])
        case Err(reason) => (s, Err(Unprocessable(reason)))
        case Ok(parsed) =>
          var cleared := s.(points := WithoutDocument(s.points, ctx.workspaceId, documentId));
          var job := Job(jobId, ctx.workspaceId, ctx.workspaceName, documentId, record.filename, record.storageKey,
                         record.uploadedBy, record.securityLevel, 1, 3);
          var (s', d) := Enqueue(env, cleared, job, faults);
          var updated := record.(workspaceName := ctx.workspaceName, parser := parsed.parserName, jobId := d.jobId,
                                 status := d.status, error := d.failure, chunkCount := d.chunkCount);
          (s'.(records := s'.records[updated.Key() := updated]), Ok(updated))
  }

  // ----- the worker -----

  /** Rewrites the status of a job's document; a record that is gone stays gone. */
  function SetStatus(s: State, job: Job, status: Status, error: Option<string>, chunkCount: Option<nat>): State {
    var key := DocKey(job.workspaceId, job.documentId);
    if key !in s.records then s
    else
      var r := s.records[key];
      var count := if chunkCount.Some? then chunkCount.value else r.chunkCount;
      s.(records := s.records[key := r.(status := status, error := error, chunkCount := count)])
  }

  /** After a failed run: enqueue the next attempt, or give up. */
  function HandleFailure(env: Env, s: State, job: Job, reason: string, faults: Faults): State {
    if job.attempt < job.maxAttempts then
      var (s', d) := EnqueueRedis(env, s, job.(attempt := job.attempt + 1), faults);
      if d.status == Queued then SetStatus(s', job, Queued, Some(reason), None)
      else
        var because := if d.failure.Some? && d.failure.value != "" then d.failure.value else reason;
        SetStatus(s', job, Failed, Some(because), Some(0))
    else SetStatus(s, job, Failed, Some(reason), Some(0))
  }

  /** The worker takes the job at the end of the list that enqueueing appends to. */
  function ProcessNext(env: Env, s: State, faults: Faults): (State, bool)
    requires env.Valid()
  {
    if s.queue == [] then (s, false)
    else
      var job := s.queue[|s.queue| - 1];
      var started := SetStatus(s.(queue := s.queue[..|s.queue| - 1]), job, Processing, None, None);
      match RunPipeline(env, started.objects, started.points, job, faults.indexing)
      case Err(reason) => (HandleFailure(env, started, job, reason, faults), true)
      case Ok(indexed) =>
        (SetStatus(started.(points := indexed.points), job, Completed, None, Some(indexed.chunkCount)), true)
  }
}
