/** What holds of the documents, the queue and the chunk index in every reachable state, and over whole runs. */
module LifecycleTheorems {
  import opened Documents
  import opened Lifecycle
  import opened LifecycleRuns
  import opened LifecycleInvariant
  import opened Sequences
  import opened Text
  import opened Wrappers
  import Chunker
  import ChunkerProperties

  // ----- reachable states -----

  lemma TakeKeepsInv(env: Env, sys: System, step: Step)
    requires env.Valid() && Inv(env, sys.state, sys.origins) && Enabled(sys, step)
    ensures Inv(env, Take(env, sys, step).state, Take(env, sys, step).origins)
  {
    match step
    case DoUpload(ctx, filename, data, level, documentId, jobId, faults) =>
      UploadKeepsInv(env, sys.state, sys.origins, ctx, filename, data, level, documentId, jobId, faults);
    case DoReindex(ctx, documentId, jobId, faults) =>
      ReindexKeepsInv(env, sys.state, sys.origins, ctx, documentId, jobId, faults);
    case DoDelete(ctx, documentId) =>
      DeleteKeepsInv(env, sys.state, sys.origins, ctx, documentId);
    case DoWork(faults) =>
      WorkKeepsInv(env, sys.state, sys.origins, faults);
  }

  /** The invariant holds throughout every run, from any state in which it holds. */
  lemma {:induction false} RunsKeepInv(env: Env, from: System, steps: seq<Step>)
    requires env.Valid() && Inv(env, from.state, from.origins)
    ensures var r := Execute(env, from, steps); r.Some? ==> Inv(env, r.value.state, r.value.origins)
    decreases |steps|
  {
    if steps != [] {
      var before := steps[..|steps| - 1];
      RunsKeepInv(env, from, before);
      var r := Execute(env, from, before);
      if r.Some? && Enabled(r.value, steps[|steps| - 1]) {
        TakeKeepsInv(env, r.value, steps[|steps| - 1]);
      }
    }
  }

  ghost predicate Reachable(env: Env, sys: System)
    requires env.Valid()
  {
    exists steps :: Execute(env, Empty, steps) == Some(sys)
  }

  lemma ReachableInv(env: Env, sys: System)
    requires env.Valid() && Reachable(env, sys)
    ensures Inv(env, sys.state, sys.origins)
  {
    var steps :| Execute(env, Empty, steps) == Some(sys);
    RunsKeepInv(env, Empty, steps);
  }

  // ----- documents and their points -----

  /** What was uploaded parses to a text with at least one chunk. */
  lemma OriginsHaveChunks(env: Env, o: Origin)
    requires env.Valid() && Parse(env, o.filename, o.data).Ok?
    ensures |ChunksOf(env, o)| >= 1
  {
    var raw := env.extract(o.filename, o.data).value.text;
    StripKeepsInk(UnixLines(raw));
    ChunkerProperties.ChunksExactlyForInk(env.chunker, Strip(UnixLines(raw)));
  }

  /**
   In every reachable state: a point belongs to a document with a metadata record, a record's
   bytes are in storage, and a document's points are either none or all of its chunks.
   */
  lemma NothingIsOrphaned(env: Env, sys: System)
    requires env.Valid() && Reachable(env, sys)
    ensures forall id :: id in sys.state.points ==>
      && sys.state.points[id].documentId == id.documentId
      && DocKey(sys.state.points[id].workspaceId, id.documentId) in sys.state.records
    ensures forall k :: k in sys.state.records ==>
      && sys.state.records[k].storageKey in sys.state.objects
      && k.documentId in sys.origins
      && (NoPoints(sys.state.points, k.documentId)
          || ExactPoints(env, sys.state.points, k.documentId, sys.origins[k.documentId]))
  {
    ReachableInv(env, sys);
    forall id | id in sys.state.points
      ensures sys.state.points[id].documentId == id.documentId
        && DocKey(sys.state.points[id].workspaceId, id.documentId) in sys.state.records
    {
      PointOwner(env, sys.state, sys.origins, id);
    }
    forall k | k in sys.state.records
      ensures sys.state.records[k].storageKey in sys.state.objects && k.documentId in sys.origins
      ensures NoPoints(sys.state.points, k.documentId)
        || ExactPoints(env, sys.state.points, k.documentId, sys.origins[k.documentId])
    {
      assert k == DocKey(sys.origins[k.documentId].workspaceId, k.documentId);
      assert DocumentOk(env, sys.state, k.documentId, sys.origins[k.documentId]);
    }
  }

  // ----- status accounting -----

  /**
   Between steps no document is `processing`, and every `queued` one has a job in the queue; so
   with an empty queue every document is `completed` or `failed`.
   */
  lemma StatusesAreAccountedFor(env: Env, sys: System, k: DocKey)
    requires env.Valid() && Reachable(env, sys) && k in sys.state.records
    ensures var status := sys.state.records[k].status;
      && status != Processing
      && (status == Queued ==> Pending(sys.state.queue, k.documentId))
      && (sys.state.queue == [] ==> status == Completed || status == Failed)
  {
    ReachableInv(env, sys);
    assert k == DocKey(sys.origins[k.documentId].workspaceId, k.documentId);
    assert DocumentOk(env, sys.state, k.documentId, sys.origins[k.documentId]);
  }

  // ----- deletion is final -----

  ghost predicate Gone(sys: System, documentId: string, o: Origin) {
    documentId in sys.origins && sys.origins[documentId] == o && !Live(sys.state, documentId, o)
  }

  lemma ReindexWritesItsRecord(env: Env, s: State, ctx: Context, d: string, jobId: string, faults: Faults)
    requires env.Valid() && Authorize(s, ctx, d).Ok?
    ensures Reindex(env, s, ctx, d, jobId, faults).0.records.Keys <= s.records.Keys + {Authorize(s, ctx, d).value.Key()}
  {
  }

  lemma WorkAddsNoRecord(env: Env, s: State, faults: Faults)
    requires env.Valid()
    ensures ProcessNext(env, s, faults).0.records.Keys == s.records.Keys
  {
    if s.queue != [] {
      ProcessNextShape(env, s, faults);
      var job := Top(s);
      var started := SetStatus(s.(queue := s.queue[..|s.queue| - 1]), job, Processing, None, None);
      SettingKeepsRecords(s.(queue := s.queue[..|s.queue| - 1]), job, Processing, None, None);
      match RunPipeline(env, s.objects, s.points, job, faults.indexing)
      case Ok(indexed) => SettingKeepsRecords(started.(points := indexed.points), job, Completed, None, Some(indexed.chunkCount));
      case Err(reason) => FailingKeepsRecords(env, started, job, reason, faults);
    }
  }

  lemma SettingKeepsRecords(s: State, job: Job, status: Status, error: Option<string>, count: Option<nat>)
    ensures SetStatus(s, job, status, error, count).records.Keys == s.records.Keys
  {
  }

  lemma FailingKeepsRecords(env: Env, s: State, job: Job, reason: string, faults: Faults)
    ensures HandleFailure(env, s, job, reason, faults).records.Keys == s.records.Keys
  {
  }

  lemma UploadAddsItsRecord(env: Env, s: State, ctx: Context, filename: string, data: Bytes, level: string,
                            d: string, jobId: string, faults: Faults)
    requires env.Valid()
    ensures Upload(env, s, ctx, filename, data, level, d, jobId, faults).0.records.Keys
      <= s.records.Keys + {DocKey(ctx.workspaceId, d)}
  {
  }

  lemma TakeKeepsGone(env: Env, sys: System, step: Step, documentId: string, o: Origin)
    requires env.Valid() && Inv(env, sys.state, sys.origins) && Enabled(sys, step) && Gone(sys, documentId, o)
    ensures Gone(Take(env, sys, step), documentId, o)
  {
    match step
    case DoUpload(ctx, filename, data, level, d, jobId, faults) =>
      UploadAddsItsRecord(env, sys.state, ctx, filename, data, level, d, jobId, faults);
    case DoReindex(ctx, d, jobId, faults) =>
      if Authorize(sys.state, ctx, d).Ok? {
        ReindexWritesItsRecord(env, sys.state, ctx, d, jobId, faults);
        AuthorizedIsLive(env, sys.state, sys.origins, ctx, d);
      }
    case DoDelete(ctx, d) =>
    case DoWork(faults) =>
      WorkAddsNoRecord(env, sys.state, faults);
  }

  lemma {:induction false} RunsKeepGone(env: Env, from: System, steps: seq<Step>, documentId: string, o: Origin)
    requires env.Valid() && Inv(env, from.state, from.origins) && Gone(from, documentId, o)
    ensures var r := Execute(env, from, steps); r.Some? ==> Gone(r.value, documentId, o)
    decreases |steps|
  {
    if steps != [] {
      var before := steps[..|steps| - 1];
      RunsKeepGone(env, from, before, documentId, o);
      RunsKeepInv(env, from, before);
      var r := Execute(env, from, before);
      if r.Some? && Enabled(r.value, steps[|steps| - 1]) {
        TakeKeepsGone(env, r.value, steps[|steps| - 1], documentId, o);
      }
    }
  }

  /** No trace of a document: no record in any workspace, no object under its key, no points. */
  ghost predicate NoTrace(s: State, documentId: string, storageKey: string) {
    && (forall k :: k in s.records ==> k.documentId != documentId)
    && storageKey !in s.objects
    && NoPoints(s.points, documentId)
  }

  lemma GoneLeavesNoTrace(env: Env, sys: System, documentId: string, o: Origin)
    requires env.Valid() && Inv(env, sys.state, sys.origins) && Gone(sys, documentId, o)
    ensures NoTrace(sys.state, documentId, o.storageKey)
  {
    assert DocumentOk(env, sys.state, documentId, o);
    forall k | k in sys.state.records
      ensures k.documentId != documentId
    {
      assert k == DocKey(k.workspaceId, k.documentId);
    }
  }

  /**
   Deleted stays deleted: after a successful deletion in any reachable state, whatever jobs are
   still queued for the document and whatever happens later, nothing of it comes back.
   */
  lemma DeletedStaysDeleted(env: Env, sys: System, ctx: Context, documentId: string, later: seq<Step>)
    requires env.Valid() && Reachable(env, sys) && Authorize(sys.state, ctx, documentId).Ok?
    ensures var key := Authorize(sys.state, ctx, documentId).value.storageKey;
      var after := Execute(env, Take(env, sys, DoDelete(ctx, documentId)), later);
      after.Some? ==> NoTrace(after.value.state, documentId, key)
  {
    ReachableInv(env, sys);
    AuthorizedIsLive(env, sys.state, sys.origins, ctx, documentId);
    DeleteKeepsInv(env, sys.state, sys.origins, ctx, documentId);
    var o, deleted := sys.origins[documentId], Take(env, sys, DoDelete(ctx, documentId));
    RunsKeepGone(env, deleted, later, documentId, o);
    RunsKeepInv(env, deleted, later);
    var after := Execute(env, deleted, later);
    if after.Some? {
      GoneLeavesNoTrace(env, after.value, documentId, o);
    }
  }
}
