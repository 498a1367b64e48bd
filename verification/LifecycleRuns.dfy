/**
 Runs of the lifecycle: any interleaving of uploads, reindexes, deletions and worker steps, with
 any failures.  A ghost history remembers what was uploaded under each document id and every
 pipeline run of the worker, and the invariant of all reachable states is stated against it.
 */
module LifecycleRuns {
  import opened Documents
  import opened Filters
  import opened Lifecycle
  import opened Sequences
  import opened Text
  import opened Wrappers
  import Chunker
  import ChunkerProperties

  // ----- systems and steps -----

  /** What was uploaded under a document id; none of it ever changes. */
  datatype Origin = Origin(
    workspaceId: string, uploadedBy: Option<string>, securityLevel: string, filename: string,
    data: Bytes, storageKey: string)

  /** One run of the pipeline by the worker, and the status the worker wrote after it. */
  datatype Run = Run(jobId: string, attempt: int, succeeded: bool, enqueueFailed: bool, wrote: Status)

  /** The state with its history: `indexedAs` is the workspace's display name in the last successful run of each document. */
  datatype System = System(
    state: State, origins: map<string, Origin>, jobIds: set<string>, log: seq<Run>, indexedAs: map<string, string>)

  datatype Step =
    | DoUpload(ctx: Context, filename: string, data: Bytes, level: string, documentId: string, jobId: string, faults: Faults)
    | DoReindex(ctx: Context, documentId: string, jobId: string, faults: Faults)
    | DoDelete(ctx: Context, documentId: string)
    | DoWork(faults: Faults)

  ghost predicate SlashFree(s: string) {
    forall i :: 0 <= i < |s| ==> s[i] != '/'
  }

  /** Generated identifiers are fresh; document ids are hexadecimal. */
  ghost predicate Enabled(sys: System, step: Step) {
    match step
    case DoUpload(_, _, _, _, documentId, jobId, _) =>
      documentId !in sys.origins && SlashFree(documentId) && jobId !in sys.jobIds
    case DoReindex(_, _, jobId, _) => jobId !in sys.jobIds
    case DoDelete(_, _) => true
    case DoWork(_) => true
  }

  /** The run that a worker step makes. */
  function RunOf(env: Env, s: State, faults: Faults): Run
    requires env.Valid() && s.queue != []
  {
    var job := s.queue[|s.queue| - 1];
    var succeeded := RunPipeline(env, s.objects, s.points, job, faults.indexing).Ok?;
    var wrote :=
      if succeeded then Completed
      else if job.attempt < job.maxAttempts && faults.enqueue.None? then Queued else Failed;
    Run(job.jobId, job.attempt, succeeded, faults.enqueue.Some?, wrote)
  }

  /** The display name that a dispatch leaves in the index, if it indexed the document on the spot. */
  function NameAfter(sys: System, r: Result<Record, ServiceError>, documentId: string, ctx: Context): map<string, string> {
    if r.Ok? && r.value.status == Completed then sys.indexedAs[documentId := ctx.workspaceName] else sys.indexedAs
  }

  ghost function Take(env: Env, sys: System, step: Step): System
    requires env.Valid()
  {
    match step
    case DoUpload(ctx, filename, data, level, documentId, jobId, faults) =>
      var (s, r) := Upload(env, sys.state, ctx, filename, data, level, documentId, jobId, faults);
      var origins :=
        if r.Err? then sys.origins
        else sys.origins[documentId := Origin(ctx.workspaceId, ctx.employeeId, level, r.value.filename, data, r.value.storageKey)];
      sys.(state := s, origins := origins, jobIds := sys.jobIds + {jobId}, indexedAs := NameAfter(sys, r, documentId, ctx))
    case DoReindex(ctx, documentId, jobId, faults) =>
      var (s, r) := Reindex(env, sys.state, ctx, documentId, jobId, faults);
      sys.(state := s, jobIds := sys.jobIds + {jobId}, indexedAs := NameAfter(sys, r, documentId, ctx))
    case DoDelete(ctx, documentId) => sys.(state := Delete(sys.state, ctx, documentId).0)
    case DoWork(faults) =>
      if sys.state.queue == [] then sys
      else
        var run, job := RunOf(env, sys.state, faults), sys.state.queue[|sys.state.queue| - 1];
        sys.(state := ProcessNext(env, sys.state, faults).0, log := sys.log + [run],
             indexedAs := if run.succeeded then sys.indexedAs[job.documentId := job.workspaceName] else sys.indexedAs)
  }

  const Empty := System(State(map[], [], map[], map[]), map[], {}, [], map[])

  /** The system after the steps, if each of them was possible. */
  ghost function Execute(env: Env, from: System, steps: seq<Step>): Option<System>
    requires env.Valid()
    decreases |steps|
  {
    if steps == [] then Some(from)
    else
      var before := Execute(env, from, steps[..|steps| - 1]);
      var last := steps[|steps| - 1];
      if before.Some? && Enabled(before.value, last) then Some(Take(env, before.value, last)) else None
  }

  // ----- what an index must contain -----

  /** The chunks of what was uploaded. */
  function ChunksOf(env: Env, o: Origin): seq<string>
    requires env.Valid()
  {
    match Parse(env, o.filename, o.data)
    case Err(_) => []
    case Ok(parsed) => Chunker.Chunks(env.chunker, parsed.text)
  }

  function ParserOf(env: Env, o: Origin): string {
    match Parse(env, o.filename, o.data)
    case Err(_) => ""
    case Ok(parsed) => parsed.parserName
  }

  /** The payload of one point, except for the workspace's display name, which LifecycleNames is about. */
  predicate PointFits(env: Env, p: Point, documentId: string, o: Origin, i: nat)
    requires env.Valid()
  {
    && i < |ChunksOf(env, o)|
    && p == Point(o.workspaceId, p.workspaceName, documentId, o.uploadedBy, o.securityLevel, o.filename,
                  ParserOf(env, o), i, ChunksOf(env, o)[i])
  }

  ghost predicate NoPoints(points: map<PointId, Point>, documentId: string) {
    forall i: nat :: PointId(documentId, i) !in points
  }

  /** The document's points are exactly its chunks. */
  ghost predicate ExactPoints(env: Env, points: map<PointId, Point>, documentId: string, o: Origin)
    requires env.Valid()
  {
    forall i: nat ::
      && (PointId(documentId, i) in points <==> i < |ChunksOf(env, o)|)
      && (PointId(documentId, i) in points ==> PointFits(env, points[PointId(documentId, i)], documentId, o, i))
  }

  // ----- the invariant -----

  ghost predicate OriginOk(env: Env, documentId: string, o: Origin) {
    && SlashFree(documentId) && SlashFree(o.filename)
    && o.storageKey == StorageKey(o.workspaceId, documentId, o.filename)
    && Parse(env, o.filename, o.data).Ok?
  }

  predicate RecordFits(env: Env, r: Record, documentId: string, o: Origin) {
    && r.documentId == documentId && r.workspaceId == o.workspaceId && r.uploadedBy == o.uploadedBy
    && r.securityLevel == o.securityLevel && r.filename == o.filename && r.storageKey == o.storageKey
    && r.parser == ParserOf(env, o)
  }

  predicate JobFits(env: Env, job: Job, origins: map<string, Origin>) {
    && job.documentId in origins
    && var o := origins[job.documentId];
    && job.workspaceId == o.workspaceId && job.uploadedBy == o.uploadedBy && job.securityLevel == o.securityLevel
    && job.filename == o.filename && job.storageKey == o.storageKey
    && 1 <= job.attempt <= job.maxAttempts == env.maxAttempts
  }

  ghost predicate Pending(queue: seq<Job>, documentId: string) {
    exists i :: 0 <= i < |queue| && queue[i].documentId == documentId
  }

  /** A document that has a metadata record. */
  predicate Live(s: State, documentId: string, o: Origin) {
    DocKey(o.workspaceId, documentId) in s.records
  }

  ghost predicate LiveOk(env: Env, s: State, documentId: string, o: Origin, r: Record)
    requires env.Valid()
  {
    && o.storageKey in s.objects && s.objects[o.storageKey] == o.data
    && RecordFits(env, r, documentId, o)
    && (NoPoints(s.points, documentId) || ExactPoints(env, s.points, documentId, o))
    && r.status != Processing
    && (r.status == Completed ==> ExactPoints(env, s.points, documentId, o) && r.chunkCount == |ChunksOf(env, o)|)
    && (r.status == Queued ==> Pending(s.queue, documentId))
  }

  ghost predicate DocumentOk(env: Env, s: State, documentId: string, o: Origin)
    requires env.Valid()
  {
    if Live(s, documentId, o) then LiveOk(env, s, documentId, o, s.records[DocKey(o.workspaceId, documentId)])
    else o.storageKey !in s.objects && NoPoints(s.points, documentId)
  }

  ghost predicate Inv(env: Env, s: State, origins: map<string, Origin>)
    requires env.Valid()
  {
    && (forall d :: d in origins ==> OriginOk(env, d, origins[d]) && DocumentOk(env, s, d, origins[d]))
    && Known(env, s, origins)
  }

  /** Records, points and jobs belong to documents that were uploaded. */
  ghost predicate Known(env: Env, s: State, origins: map<string, Origin>) {
    && (forall k :: k in s.records ==> k.documentId in origins && k.workspaceId == origins[k.documentId].workspaceId)
    && (forall id :: id in s.points ==> id.documentId in origins)
    && (forall i :: 0 <= i < |s.queue| ==> JobFits(env, s.queue[i], origins))
  }
}
