/**
 What the steps of the lifecycle do, field by field: whom they refuse, what they store, queue, index
 and record, and which error a failed run leaves behind.
 */
module LifecycleContracts {
  import opened Documents
  import opened Filters
  import opened Lifecycle
  import opened Security
  import opened Sequences
  import opened Text
  import opened Wrappers
  import Chunker

  // ----- names and texts -----

  ghost predicate PlainName(name: string) {
    forall i :: 0 <= i < |name| ==> name[i] != '/' && name[i] != '\\'
  }

  lemma {:induction false} ForwardOf(a: string, b: string)
    ensures BackToForward(a + b) == BackToForward(a) + BackToForward(b)
  {
    if a == "" {
      assert a + b == b;
    } else {
      TailOfConcat(a, b);
      ForwardOf(a[1..], b);
      Regroup([if a[0] == '\\' then '/' else a[0]], BackToForward(a[1..]), BackToForward(b));
    }
  }

  lemma {:induction false} ForwardLeavesAlone(name: string)
    requires PlainName(name)
    ensures BackToForward(name) == name
  {
    if name != "" {
      ForwardLeavesAlone(name[1..]);
      assert name == [name[0]] + name[1..];
    }
  }

  lemma {:induction false} AfterSlash(before: string, name: string)
    requires PlainName(name) && (before == "" || before[|before| - 1] == '/')
    ensures AfterLastSlash(before + name) == name
    decreases |name|
  {
    if name == "" {
      assert before + name == before;
    } else {
      InitOfConcat(before, name);
      AfterSlash(before, name[..|name| - 1]);
      assert name == name[..|name| - 1] + [name[|name| - 1]];
    }
  }

  /** A filename is what follows the last slash or backslash, stripped; `document` if nothing is left. */
  lemma FilenameMeaning(directory: string, name: string)
    requires PlainName(name)
    requires directory == "" || directory[|directory| - 1] == '/' || directory[|directory| - 1] == '\\'
    ensures NormalizeFilename(directory + name) == if Strip(name) == "" then "document" else Strip(name)
  {
    ForwardOf(directory, name);
    ForwardLeavesAlone(name);
    if directory != "" {
      var last := directory[|directory| - 1];
      assert directory == directory[..|directory| - 1] + [last];
      ForwardOf(directory[..|directory| - 1], [last]);
      assert BackToForward([last]) == "/" by {
        assert [last][1..] == "";
      }
    }
    AfterSlash(BackToForward(directory), name);
  }

  /** Parsing succeeds exactly if extraction does and the text has ink; it then yields the stripped text with Unix line ends. */
  lemma ParseMeaning(env: Env, filename: string, data: Bytes)
    ensures var raw := env.extract(filename, data);
      match Parse(env, filename, data)
      case Ok(parsed) =>
        raw.Ok? && parsed.parserName == raw.value.parserName && parsed.text == Strip(UnixLines(raw.value.text)) && HasInk(parsed.text)
      case Err(reason) =>
        if raw.Err? then reason == raw.error
        else !HasInk(UnixLines(raw.value.text)) && reason == "Document is empty after parsing."
  {
    var raw := env.extract(filename, data);
    if raw.Ok? {
      StripKeepsInk(UnixLines(raw.value.text));
    }
  }

  // ----- who is refused -----

  /** Whom a deletion or a reindex refuses, and that a failure changes nothing. */
  ghost predicate Guarded(s: State, ctx: Context, documentId: string, failure: Option<ServiceError>, s': State) {
    var k := DocKey(ctx.workspaceId, documentId);
    && (failure == Some(DocumentNotFound) <==> k !in s.records)
    && (k in s.records && ctx.role != "admin"
        && (s.records[k].securityLevel == "confidential" || s.records[k].securityLevel == "restricted") ==>
          failure == Some(NotPermitted(LevelForbidden)))
    && (k in s.records && IsLevel(s.records[k].securityLevel)
        && (ctx.role == "admin" || s.records[k].securityLevel == "general" || s.records[k].securityLevel == "internal") ==>
          !(failure.Some? && failure.value.NotPermitted?))
    && (failure.Some? ==> s' == s)
  }

  function FailureOf<T>(r: Result<T, ServiceError>): Option<ServiceError> {
    match r
    case Ok(_) => None
    case Err(e) => Some(e)
  }

  lemma AuthorizeMeaning(s: State, ctx: Context, documentId: string)
    ensures var k, r := DocKey(ctx.workspaceId, documentId), Authorize(s, ctx, documentId);
      && (r == Err(DocumentNotFound) <==> k !in s.records)
      && (r.Ok? ==> k in s.records && r.value == s.records[k])
      && (r.Err? ==> r.error == DocumentNotFound || r.error.NotPermitted?)
      && (k in s.records && IsLevel(s.records[k].securityLevel) ==>
           if ctx.role == "admin" || s.records[k].securityLevel == "general" || s.records[k].securityLevel == "internal"
           then r.Ok? else r == Err(NotPermitted(LevelForbidden)))
  {
    var k := DocKey(ctx.workspaceId, documentId);
    if k in s.records && IsLevel(s.records[k].securityLevel) {
      WhoMayHandle(ctx.role, s.records[k].securityLevel);
    }
  }

  lemma DeleteIsGuarded(s: State, ctx: Context, documentId: string)
    ensures var (s', r) := Delete(s, ctx, documentId); Guarded(s, ctx, documentId, FailureOf(r), s')
  {
    AuthorizeMeaning(s, ctx, documentId);
  }

  lemma ReindexIsGuarded(env: Env, s: State, ctx: Context, documentId: string, jobId: string, faults: Faults)
    requires env.Valid()
    ensures var (s', r) := Reindex(env, s, ctx, documentId, jobId, faults); Guarded(s, ctx, documentId, FailureOf(r), s')
  {
    AuthorizeMeaning(s, ctx, documentId);
  }

  // ----- what a dispatch does -----

  /** What the outcome of a dispatch says, and what becomes of the queue and the points. */
  ghost predicate Dispatches(env: Env, s: State, s': State, job: Job, parsed: Extracted, faults: Faults, r: Record)
    requires env.Valid()
  {
    var chunks := Chunker.Chunks(env.chunker, parsed.text);
    if env.mode == Redis then
      && s'.points == s.points
      && if faults.enqueue.Some? then s'.queue == s.queue && r.status == Failed && r.error == faults.enqueue && r.chunkCount == 0
         else s'.queue == s.queue + [job.(attempt := 1, maxAttempts := env.maxAttempts)]
              && r.status == Queued && r.error == None && r.chunkCount == 0
    else
      && s'.queue == s.queue
      && if faults.indexing.Some? then s'.points == s.points && r.status == Failed && r.error == faults.indexing && r.chunkCount == 0
         else Indexes(s.points, s'.points, job, parsed.parserName, chunks)
              && r.status == Completed && r.error == None && r.chunkCount == |chunks|
  }

  /** One point per chunk with the job's fields, beside or over what was there. */
  ghost predicate Indexes(points: map<PointId, Point>, points': map<PointId, Point>, job: Job, parser: string, chunks: seq<string>) {
    forall id: PointId ::
      if id.documentId == job.documentId && id.index < |chunks| then
        id in points' && points'[id] ==
          Point(job.workspaceId, job.workspaceName, job.documentId, job.uploadedBy, job.securityLevel, job.filename,
                parser, id.index, chunks[id.index])
      else (id in points' <==> id in points) && (id in points' ==> points'[id] == points[id])
  }

  lemma UpsertIndexes(points: map<PointId, Point>, job: Job, parser: string, chunks: seq<string>)
    ensures Indexes(points, points + NewPoints(job, parser, chunks), job, parser, chunks)
  {
    var added := NewPoints(job, parser, chunks);
    forall id: PointId
      ensures id in added <==> id.documentId == job.documentId && id.index < |chunks|
    {
      assert id == PointId(id.documentId, id.index);
    }
  }

  lemma EnqueueMeaning(env: Env, s: State, job: Job, parsed: Extracted, faults: Faults, r: Record)
    requires env.Valid() && job.storageKey in s.objects && job.attempt == 1
    requires Parse(env, job.filename, s.objects[job.storageKey]) == Ok(parsed)
    requires var d := Enqueue(env, s, job, faults).1; r.status == d.status && r.error == d.failure && r.chunkCount == d.chunkCount
    ensures var (s', d) := Enqueue(env, s, job, faults);
      && Dispatches(env, s, s', job, parsed, faults, r)
      && s'.objects == s.objects && s'.records == s.records && d.jobId == job.jobId
  {
    UpsertIndexes(s.points, job, parsed.parserName, Chunker.Chunks(env.chunker, parsed.text));
  }

  // ----- uploads -----

  /** A file that is too large or does not parse is refused; any other is stored, dispatched and recorded. */
  ghost predicate Uploads(env: Env, s: State, ctx: Context, filename: string, data: Bytes, level: string, documentId: string,
                          jobId: string, faults: Faults, s': State, r: Result<Record, ServiceError>)
    requires env.Valid()
  {
    var name := NormalizeFilename(filename);
    var parsed := Parse(env, name, data);
    if |data| > env.maxDocumentBytes then r == Err(DocumentTooLarge) && s' == s
    else if parsed.Err? then r == Err(Unprocessable(parsed.error)) && s' == s
    else
      && r.Ok?
      && var record := r.value;
      && record.documentId == documentId && record.jobId == jobId && record.filename == name
      && record.workspaceId == ctx.workspaceId && record.workspaceName == ctx.workspaceName
      && record.uploadedBy == ctx.employeeId && record.securityLevel == level
      && record.parser == parsed.value.parserName
      && record.storageKey == ctx.workspaceId + "/" + documentId + "/" + name
      && s'.objects == s.objects[record.storageKey := data]
      && s'.records == s.records[DocKey(ctx.workspaceId, documentId) := record]
      && Dispatches(env, s, s', JobOf(record), parsed.value, faults, record)
  }

  /** The job for a record: it carries the record's fields. */
  ghost function JobOf(r: Record): Job {
    Job(r.jobId, r.workspaceId, r.workspaceName, r.documentId, r.filename, r.storageKey, r.uploadedBy, r.securityLevel, 1, 3)
  }

  lemma UploadMeaning(env: Env, s: State, ctx: Context, filename: string, data: Bytes, level: string, documentId: string,
                      jobId: string, faults: Faults)
    requires env.Valid()
    ensures var (s', r) := Upload(env, s, ctx, filename, data, level, documentId, jobId, faults);
      Uploads(env, s, ctx, filename, data, level, documentId, jobId, faults, s', r)
  {
    var (s', r) := Upload(env, s, ctx, filename, data, level, documentId, jobId, faults);
    if r.Ok? {
      var name := NormalizeFilename(filename);
      var stored := s.(objects := s.objects[r.value.storageKey := data]);
      EnqueueMeaning(env, stored, JobOf(r.value), Parse(env, name, data).value, faults, r.value);
    }
  }

  // ----- reindexing -----

  /** The points that are not those of the document in the workspace. */
  ghost function Cleared(points: map<PointId, Point>, workspaceId: string, documentId: string): map<PointId, Point> {
    map id | id in points && !(points[id].workspaceId == workspaceId && points[id].documentId == documentId) :: points[id]
  }

  lemma ClearingMeaning(points: map<PointId, Point>, workspaceId: string, documentId: string)
    ensures WithoutDocument(points, workspaceId, documentId) == Cleared(points, workspaceId, documentId)
  {
    forall id | id in points
      ensures id in WithoutDocument(points, workspaceId, documentId) <==> id in Cleared(points, workspaceId, documentId)
    {
      FilterMeaning(RetrievalFilter(workspaceId, Some([documentId]), None), points[id]);
    }
  }

  ghost predicate IsRefusal(failure: Option<ServiceError>) {
    failure.Some? && (failure.value == DocumentNotFound || failure.value.NotPermitted?)
  }

  /**
   Whoever is not refused gets the stored bytes checked again; if they pass, the points are cleared
   and the document is dispatched and recorded anew, under the caller's name for the workspace.
   */
  ghost predicate Reindexes(env: Env, s: State, ctx: Context, documentId: string, jobId: string, faults: Faults,
                            s': State, r: Result<Record, ServiceError>)
    requires env.Valid()
  {
    var k := DocKey(ctx.workspaceId, documentId);
    IsRefusal(FailureOf(r)) || (k in s.records && ReindexesRecord(env, s, ctx, s.records[k], jobId, faults, s', r))
  }

  ghost predicate ReindexesRecord(env: Env, s: State, ctx: Context, was: Record, jobId: string, faults: Faults,
                                  s': State, r: Result<Record, ServiceError>)
    requires env.Valid()
  {
    if was.storageKey !in s.objects then r == Err(MissingObject)
    else if |s.objects[was.storageKey]| > env.maxDocumentBytes then r == Err(DocumentTooLarge)
    else
      var parsed := Parse(env, was.filename, s.objects[was.storageKey]);
      if parsed.Err? then r == Err(Unprocessable(parsed.error))
      else
        && r.Ok?
        && var record := r.value;
        && record == was.(workspaceName := ctx.workspaceName, parser := parsed.value.parserName, jobId := jobId,
                          status := record.status, error := record.error, chunkCount := record.chunkCount)
        && s'.objects == s.objects
        && s'.records == s.records[was.Key() := record]
        && Dispatches(env, s.(points := Cleared(s.points, ctx.workspaceId, was.documentId)), s',
                      JobOf(record).(workspaceId := ctx.workspaceId), parsed.value, faults, record)
  }

  lemma ReindexMeaning(env: Env, s: State, ctx: Context, documentId: string, jobId: string, faults: Faults)
    requires env.Valid()
    requires DocKey(ctx.workspaceId, documentId) in s.records ==>
      s.records[DocKey(ctx.workspaceId, documentId)].Key() == DocKey(ctx.workspaceId, documentId)
    ensures var (s', r) := Reindex(env, s, ctx, documentId, jobId, faults);
      Reindexes(env, s, ctx, documentId, jobId, faults, s', r)
  {
    var (s', r) := Reindex(env, s, ctx, documentId, jobId, faults);
    AuthorizeMeaning(s, ctx, documentId);
    ClearingMeaning(s.points, ctx.workspaceId, documentId);
    if r.Ok? {
      var was := s.records[DocKey(ctx.workspaceId, documentId)];
      var cleared := s.(points := Cleared(s.points, ctx.workspaceId, documentId));
      EnqueueMeaning(env, cleared, JobOf(r.value), Parse(env, was.filename, s.objects[was.storageKey]).value, faults, r.value);
    }
  }

  // ----- deletions -----

  /** A deletion that is not refused removes the document's points, its object and its record, and nothing else. */
  ghost predicate Deletes(s: State, ctx: Context, documentId: string, s': State, r: Result<(), ServiceError>) {
    var k := DocKey(ctx.workspaceId, documentId);
    IsRefusal(FailureOf(r)) || (
      && r.Ok? && k in s.records
      && s' == State(s.objects - {s.records[k].storageKey}, s.queue, Cleared(s.points, ctx.workspaceId, documentId), s.records - {k}))
  }

  lemma DeleteMeaning(s: State, ctx: Context, documentId: string)
    ensures var (s', r) := Delete(s, ctx, documentId); Deletes(s, ctx, documentId, s', r)
  {
    AuthorizeMeaning(s, ctx, documentId);
    ClearingMeaning(s.points, ctx.workspaceId, documentId);
  }

  // ----- worker steps -----

  /** The error of a pipeline run: the missing object, the text that does not parse, or the service that fails. */
  ghost function RunError(env: Env, s: State, job: Job, faults: Faults): Option<string> {
    if job.storageKey !in s.objects then Some("object not found")
    else
      match Parse(env, job.filename, s.objects[job.storageKey])
      case Err(reason) => Some(reason)
      case Ok(_) => faults.indexing
  }

  /**
   What a worker leaves in the record of its job's document: no error after success, the error of the
   run when it will try again or has tried often enough, and the error of the queue when that
   refuses the next attempt and says why.
   */
  ghost predicate RecordsOutcome(env: Env, s: State, job: Job, faults: Faults, was: Record, record: Record) {
    var error := RunError(env, s, job, faults);
    if error.None? then
      record == was.(status := Completed, error := None, chunkCount := record.chunkCount)
    else if job.attempt >= job.maxAttempts then
      record == was.(status := Failed, error := error, chunkCount := 0)
    else if faults.enqueue.None? then
      record == was.(status := Queued, error := error)
    else
      record == was.(status := Failed, error := if faults.enqueue.value == "" then error else faults.enqueue, chunkCount := 0)
  }

  ghost predicate Works(env: Env, s: State, faults: Faults, s': State)
    requires s.queue != []
  {
    var job := s.queue[|s.queue| - 1];
    var k := DocKey(job.workspaceId, job.documentId);
    && OnlyRecord(s, s', k)
    && (k in s.records ==> RecordsOutcome(env, s, job, faults, s.records[k], s'.records[k]))
  }

  lemma WorkerMeaning(env: Env, s: State, faults: Faults)
    requires env.Valid() && s.queue != []
    ensures Works(env, s, faults, ProcessNext(env, s, faults).0)
  {
    var job := s.queue[|s.queue| - 1];
    var started := SetStatus(s.(queue := s.queue[..|s.queue| - 1]), job, Processing, None, None);
    RunMeaning(env, s, job, faults);
    match RunPipeline(env, s.objects, s.points, job, faults.indexing)
    case Ok(indexed) =>
      StatusMeaning(s.(queue := s.queue[..|s.queue| - 1]), job, Processing, None, None);
      StatusMeaning(started.(points := indexed.points), job, Completed, None, Some(indexed.chunkCount));
    case Err(reason) =>
      StatusMeaning(s.(queue := s.queue[..|s.queue| - 1]), job, Processing, None, None);
      FailureMeaning(env, started, job, reason, faults);
  }

  lemma RunMeaning(env: Env, s: State, job: Job, faults: Faults)
    requires env.Valid()
    ensures match RunPipeline(env, s.objects, s.points, job, faults.indexing)
      case Ok(_) => RunError(env, s, job, faults) == None
      case Err(reason) => RunError(env, s, job, faults) == Some(reason)
  {
  }

  /** A status is written to the record of the job's document, if there is one, and nowhere else. */
  ghost predicate OnlyRecord(s: State, s': State, k: DocKey) {
    && s'.objects == s.objects
    && (k in s'.records <==> k in s.records)
    && (forall other :: other != k ==> (other in s'.records <==> other in s.records))
    && (forall other :: other != k && other in s.records ==> s'.records[other] == s.records[other])
  }

  lemma StatusMeaning(s: State, job: Job, status: Status, error: Option<string>, count: Option<nat>)
    ensures var s' := SetStatus(s, job, status, error, count); var k := DocKey(job.workspaceId, job.documentId);
      && OnlyRecord(s, s', k) && s'.points == s.points && s'.queue == s.queue
      && (k in s.records ==>
           var chunkCount := if count.Some? then count.value else s.records[k].chunkCount;
           s'.records[k] == s.records[k].(status := status, error := error, chunkCount := chunkCount))
  {
  }

  lemma FailureMeaning(env: Env, s: State, job: Job, reason: string, faults: Faults)
    ensures var s' := HandleFailure(env, s, job, reason, faults); var k := DocKey(job.workspaceId, job.documentId);
      && OnlyRecord(s, s', k)
      && (k in s.records ==>
           var r, r' := s.records[k], s'.records[k];
           if job.attempt >= job.maxAttempts then r' == r.(status := Failed, error := Some(reason), chunkCount := 0)
           else if faults.enqueue.None? then r' == r.(status := Queued, error := Some(reason))
           else
             var error := if faults.enqueue.value == "" then Some(reason) else faults.enqueue;
             r' == r.(status := Failed, error := error, chunkCount := 0))
  {
    var after := EnqueueRedis(env, s, job.(attempt := job.attempt + 1), faults).0;
    StatusMeaning(after, job, Queued, Some(reason), None);
    StatusMeaning(s, job, Failed, Some(reason), Some(0));
  }
}
