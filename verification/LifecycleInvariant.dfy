/** Every step of the lifecycle keeps the invariant. */
module LifecycleInvariant {
  import opened Documents
  import opened Filters
  import opened Lifecycle
  import opened LifecycleRuns
  import opened Sequences
  import opened Text
  import opened Wrappers

  // ----- names -----

  /** The last slash of a string splits it in one way only. */
  lemma {:induction false} LastSlashSplits(a: string, f: string, a': string, f': string)
    requires SlashFree(f) && SlashFree(f') && a + "/" + f == a' + "/" + f'
    ensures a == a' && f == f'
    decreases |f|
  {
    var k, k' := a + "/" + f, a' + "/" + f';
    assert k[|k| - 1] == if f == "" then '/' else f[|f| - 1];
    assert k'[|k'| - 1] == if f' == "" then '/' else f'[|f'| - 1];
    if f == "" {
      assert a == k[..|k| - 1] && a' == k'[..|k'| - 1];
    } else {
      assert k[..|k| - 1] == a + "/" + f[..|f| - 1] && k'[..|k'| - 1] == a' + "/" + f'[..|f'| - 1];
      LastSlashSplits(a, f[..|f| - 1], a', f'[..|f'| - 1]);
      assert f == f[..|f| - 1] + [f[|f| - 1]] && f' == f'[..|f'| - 1] + [f'[|f'| - 1]];
    }
  }

  /** Two documents never share a storage key. */
  lemma StorageKeysDiffer(w: string, d: string, f: string, w': string, d': string, f': string)
    requires SlashFree(d) && SlashFree(f) && SlashFree(d') && SlashFree(f')
    requires StorageKey(w, d, f) == StorageKey(w', d', f')
    ensures w == w' && d == d' && f == f'
  {
    LastSlashSplits(w + "/" + d, f, w' + "/" + d', f');
    LastSlashSplits(w, d, w', d');
  }

  lemma {:induction false} LastPartIsSlashFree(s: string)
    ensures SlashFree(AfterLastSlash(s))
  {
    if s != "" && s[|s| - 1] != '/' {
      LastPartIsSlashFree(s[..|s| - 1]);
    }
  }

  lemma SlashFreeSlice(s: string, from: nat, to: nat)
    requires SlashFree(s) && from <= to <= |s|
    ensures SlashFree(s[from..to])
  {
    forall i | 0 <= i < |s[from..to]|
      ensures s[from..to][i] != '/'
    {
      assert s[from..to][i] == s[from + i];
    }
  }

  /** A normalised filename is not empty and contains no slash. */
  lemma NormalizedFilename(filename: string)
    ensures NormalizeFilename(filename) != "" && SlashFree(NormalizeFilename(filename))
  {
    var name := AfterLastSlash(BackToForward(filename));
    LastPartIsSlashFree(BackToForward(filename));
    StripFacts(name);
    SlashFreeSlice(name, LeadingSpaces(name), InkEnd(name, LeadingSpaces(name)));
  }

  // ----- framing -----

  ghost predicate SamePoints(points: map<PointId, Point>, points': map<PointId, Point>, documentId: string) {
    forall i: nat ::
      && (PointId(documentId, i) in points <==> PointId(documentId, i) in points')
      && (PointId(documentId, i) in points' ==> points[PointId(documentId, i)] == points'[PointId(documentId, i)])
  }

  /** The two states agree on everything that concerns one document. */
  ghost predicate SameFor(s: State, s': State, documentId: string, o: Origin) {
    var k := DocKey(o.workspaceId, documentId);
    && (k in s.records <==> k in s'.records)
    && (k in s.records ==> s.records[k] == s'.records[k])
    && (o.storageKey in s.objects <==> o.storageKey in s'.objects)
    && (o.storageKey in s.objects ==> s.objects[o.storageKey] == s'.objects[o.storageKey])
    && SamePoints(s.points, s'.points, documentId)
    && (Pending(s.queue, documentId) ==> Pending(s'.queue, documentId))
  }

  lemma Frame(env: Env, s: State, s': State, documentId: string, o: Origin)
    requires env.Valid() && DocumentOk(env, s, documentId, o) && SameFor(s, s', documentId, o)
    ensures DocumentOk(env, s', documentId, o)
  {
    assert NoPoints(s.points, documentId) ==> NoPoints(s'.points, documentId);
    assert ExactPoints(env, s.points, documentId, o) ==> ExactPoints(env, s'.points, documentId, o);
  }

  // ----- the chunk index -----

  /** Upserting a document's chunks over none of its points, or over exactly those, leaves exactly those. */
  lemma UpsertGivesExact(env: Env, points: map<PointId, Point>, job: Job, o: Origin)
    requires env.Valid() && JobFits(env, job, map[job.documentId := o])
    requires NoPoints(points, job.documentId) || ExactPoints(env, points, job.documentId, o)
    ensures var points' := points + NewPoints(job, ParserOf(env, o), ChunksOf(env, o));
      ExactPoints(env, points', job.documentId, o)
      && forall d :: d != job.documentId ==> SamePoints(points, points', d)
  {
    var added := NewPoints(job, ParserOf(env, o), ChunksOf(env, o));
    forall i: nat | i < |ChunksOf(env, o)|
      ensures PointId(job.documentId, i) in added && PointFits(env, added[PointId(job.documentId, i)], job.documentId, o, i)
    {
    }
  }

  /** A point of a known document carries the document's id and workspace. */
  lemma PointOwner(env: Env, s: State, origins: map<string, Origin>, id: PointId)
    requires env.Valid() && Inv(env, s, origins) && id in s.points
    ensures id.documentId in origins && Live(s, id.documentId, origins[id.documentId])
    ensures s.points[id].documentId == id.documentId
    ensures s.points[id].workspaceId == origins[id.documentId].workspaceId
  {
    var d := id.documentId;
    assert DocumentOk(env, s, d, origins[d]);
    assert id == PointId(d, id.index);
  }

  /** The points that a deletion selects are those of the document. */
  lemma SelectedPoints(env: Env, s: State, origins: map<string, Origin>, documentId: string, id: PointId)
    requires env.Valid() && Inv(env, s, origins) && documentId in origins && id in s.points
    ensures id in WithoutDocument(s.points, origins[documentId].workspaceId, documentId) <==> id.documentId != documentId
  {
    PointOwner(env, s, origins, id);
    FilterMeaning(RetrievalFilter(origins[documentId].workspaceId, Some([documentId]), None), s.points[id]);
  }

  /** All points but those of one document. */
  ghost function Others(points: map<PointId, Point>, documentId: string): map<PointId, Point> {
    map id | id in points && id.documentId != documentId :: points[id]
  }

  lemma OthersFacts(points: map<PointId, Point>, documentId: string)
    ensures NoPoints(Others(points, documentId), documentId)
    ensures forall d :: d != documentId ==> SamePoints(points, Others(points, documentId), d)
  {
  }

  /** Deleting by workspace and document removes the points of that document and no others. */
  lemma WithoutDocumentFacts(env: Env, s: State, origins: map<string, Origin>, documentId: string)
    requires env.Valid() && Inv(env, s, origins) && documentId in origins
    ensures WithoutDocument(s.points, origins[documentId].workspaceId, documentId) == Others(s.points, documentId)
  {
    forall id | id in s.points
      ensures id in WithoutDocument(s.points, origins[documentId].workspaceId, documentId) <==> id.documentId != documentId
    {
      SelectedPoints(env, s, origins, documentId, id);
    }
  }

  // ----- the pipeline -----

  /** On a live document the pipeline fails only if a service does, and otherwise upserts the document's chunks. */
  lemma PipelineOnLive(env: Env, s: State, job: Job, o: Origin, fault: Option<string>)
    requires env.Valid() && JobFits(env, job, map[job.documentId := o])
    requires o.storageKey in s.objects && s.objects[o.storageKey] == o.data && Parse(env, o.filename, o.data).Ok?
    ensures RunPipeline(env, s.objects, s.points, job, fault)
      == if fault.Some? then Err(fault.value)
         else Ok(Indexed(s.points + NewPoints(job, ParserOf(env, o), ChunksOf(env, o)), |ChunksOf(env, o)|))
  {
  }

  /** What enqueueing a job for a stored document with no points does, whichever queue is configured. */
  ghost predicate Enqueued(env: Env, s: State, s': State, d: Dispatch, documentId: string, o: Origin)
    requires env.Valid()
  {
    && s'.objects == s.objects && s'.records == s.records
    && (forall other :: other != documentId ==> SamePoints(s.points, s'.points, other))
    && (forall other :: Pending(s.queue, other) ==> Pending(s'.queue, other))
    && (NoPoints(s'.points, documentId) || ExactPoints(env, s'.points, documentId, o))
    && (forall id :: id in s'.points ==> id in s.points || id.documentId == documentId)
    && d.status != Processing
    && (d.status == Completed ==> ExactPoints(env, s'.points, documentId, o) && d.chunkCount == |ChunksOf(env, o)|)
    && (d.status == Queued ==> Pending(s'.queue, documentId))
  }

  lemma EnqueueEffect(env: Env, s: State, job: Job, o: Origin, faults: Faults)
    requires env.Valid() && JobFits(env, job.(maxAttempts := env.maxAttempts), map[job.documentId := o])
    requires o.storageKey in s.objects && s.objects[o.storageKey] == o.data && Parse(env, o.filename, o.data).Ok?
    requires NoPoints(s.points, job.documentId)
    ensures var (s', d) := Enqueue(env, s, job, faults);
      && Enqueued(env, s, s', d, job.documentId, o)
      && (s'.queue == s.queue || s'.queue == s.queue + [job.(maxAttempts := env.maxAttempts)])
  {
    var (s', d) := Enqueue(env, s, job, faults);
    if env.mode == Redis {
      PendingGrows(s.queue, job.(maxAttempts := env.maxAttempts));
    } else {
      PipelineOnLive(env, s, job.(maxAttempts := env.maxAttempts), o, faults.indexing);
      UpsertGivesExact(env, s.points, job.(maxAttempts := env.maxAttempts), o);
    }
  }

  lemma PendingGrows(queue: seq<Job>, job: Job)
    ensures Pending(queue + [job], job.documentId)
    ensures forall d :: Pending(queue, d) ==> Pending(queue + [job], d)
  {
    assert (queue + [job])[|queue|] == job;
    forall d | Pending(queue, d)
      ensures Pending(queue + [job], d)
    {
      var i :| 0 <= i < |queue| && queue[i].documentId == d;
      assert (queue + [job])[i] == queue[i];
    }
  }

  // ----- steps -----

  /** Objects and records change at most where one document keeps them. */
  ghost predicate TouchesOnly(s: State, s': State, documentId: string, o: Origin) {
    && (forall k: DocKey :: k.documentId != documentId ==> (k in s.records <==> k in s'.records))
    && (forall k: DocKey :: k.documentId != documentId && k in s.records ==> s.records[k] == s'.records[k])
    && (forall k :: k != o.storageKey ==> (k in s.objects <==> k in s'.objects))
    && (forall k :: k != o.storageKey && k in s.objects ==> s.objects[k] == s'.objects[k])
    && (forall d :: d != documentId ==> SamePoints(s.points, s'.points, d))
    && (forall d :: d != documentId && Pending(s.queue, d) ==> Pending(s'.queue, d))
  }

  /** A step that touches one document and leaves it in order keeps the invariant. */
  lemma OneDocument(env: Env, s: State, s': State, origins: map<string, Origin>, documentId: string, o: Origin)
    requires env.Valid() && Inv(env, s, origins)
    requires documentId in origins ==> origins[documentId] == o
    requires OriginOk(env, documentId, o) && DocumentOk(env, s', documentId, o)
    requires TouchesOnly(s, s', documentId, o)
    requires forall k :: k in s'.records && k.documentId == documentId ==> k.workspaceId == o.workspaceId
    requires forall id :: id in s'.points ==> id in s.points || id.documentId == documentId
    requires forall i :: 0 <= i < |s'.queue| ==> JobFits(env, s'.queue[i], origins[documentId := o])
    ensures Inv(env, s', origins[documentId := o])
  {
    OtherDocuments(env, s, s', origins, documentId, o);
    assert Known(env, s', origins[documentId := o]) by {
      StillKnown(env, s, s', origins, documentId, o);
    }
    InvFrom(env, s', origins, documentId, o);
  }

  lemma InvFrom(env: Env, s: State, origins: map<string, Origin>, documentId: string, o: Origin)
    requires env.Valid() && OriginOk(env, documentId, o) && DocumentOk(env, s, documentId, o)
    requires forall d :: d in origins && d != documentId ==> OriginOk(env, d, origins[d]) && DocumentOk(env, s, d, origins[d])
    requires Known(env, s, origins[documentId := o])
    ensures Inv(env, s, origins[documentId := o])
  {
  }

  lemma StillKnown(env: Env, s: State, s': State, origins: map<string, Origin>, documentId: string, o: Origin)
    requires Known(env, s, origins)
    requires forall k: DocKey :: k.documentId != documentId && k in s'.records ==> k in s.records
    requires forall k :: k in s'.records && k.documentId == documentId ==> k.workspaceId == o.workspaceId
    requires forall id :: id in s'.points ==> id in s.points || id.documentId == documentId
    requires forall i :: 0 <= i < |s'.queue| ==> JobFits(env, s'.queue[i], origins[documentId := o])
    ensures Known(env, s', origins[documentId := o])
  {
  }

  lemma OtherDocuments(env: Env, s: State, s': State, origins: map<string, Origin>, documentId: string, o: Origin)
    requires env.Valid() && Inv(env, s, origins) && OriginOk(env, documentId, o) && TouchesOnly(s, s', documentId, o)
    ensures forall d :: d in origins && d != documentId ==> OriginOk(env, d, origins[d]) && DocumentOk(env, s', d, origins[d])
  {
    forall d | d in origins && d != documentId
      ensures OriginOk(env, d, origins[d]) && DocumentOk(env, s', d, origins[d])
    {
      assert OriginOk(env, d, origins[d]) && DocumentOk(env, s, d, origins[d]);
      OtherDocument(env, s, s', documentId, o, d, origins[d]);
    }
  }

  lemma OtherDocument(env: Env, s: State, s': State, documentId: string, o: Origin, d: string, other: Origin)
    requires env.Valid() && OriginOk(env, documentId, o) && TouchesOnly(s, s', documentId, o)
    requires d != documentId && OriginOk(env, d, other) && DocumentOk(env, s, d, other)
    ensures DocumentOk(env, s', d, other)
  {
    if other.storageKey == o.storageKey {
      StorageKeysDiffer(o.workspaceId, documentId, o.filename, other.workspaceId, d, other.filename);
    }
    Frame(env, s, s', d, other);
  }

  /** Known jobs stay fitting when an origin is added. */
  lemma JobsStillFit(env: Env, queue: seq<Job>, origins: map<string, Origin>, documentId: string, o: Origin)
    requires forall i :: 0 <= i < |queue| ==> JobFits(env, queue[i], origins)
    requires documentId in origins ==> origins[documentId] == o
    ensures forall i :: 0 <= i < |queue| ==> JobFits(env, queue[i], origins[documentId := o])
  {
  }

  /** Recording the outcome of a dispatch leaves the document in order. */
  lemma DispatchRecorded(env: Env, s: State, s': State, d: Dispatch, documentId: string, o: Origin, r: Record)
    requires env.Valid() && Enqueued(env, s, s', d, documentId, o)
    requires o.storageKey in s.objects && s.objects[o.storageKey] == o.data
    requires RecordFits(env, r, documentId, o) && r.status == d.status && r.chunkCount == d.chunkCount
    ensures DocumentOk(env, s'.(records := s'.records[r.Key() := r]), documentId, o)
  {
  }

  /** A change to one document followed by a dispatch and a record for it touches that document only. */
  lemma DispatchTouches(env: Env, s: State, cleared: State, s': State, d: Dispatch, documentId: string, o: Origin, r: Record)
    requires env.Valid() && TouchesOnly(s, cleared, documentId, o) && Enqueued(env, cleared, s', d, documentId, o)
    requires r.documentId == documentId
    ensures TouchesOnly(s, s'.(records := s'.records[r.Key() := r]), documentId, o)
  {
    forall other | other != documentId
      ensures SamePoints(s.points, s'.points, other)
    {
      assert SamePoints(s.points, cleared.points, other) && SamePoints(cleared.points, s'.points, other);
    }
  }

  /** A change to one document, a dispatch and a record of its outcome together keep the invariant. */
  lemma DispatchKeepsInv(env: Env, s: State, origins: map<string, Origin>, cleared: State, queued: State, d: Dispatch,
                         job: Job, o: Origin, r: Record)
    requires env.Valid() && Inv(env, s, origins) && (job.documentId in origins ==> origins[job.documentId] == o)
    requires OriginOk(env, job.documentId, o) && JobFits(env, job, map[job.documentId := o])
    requires TouchesOnly(s, cleared, job.documentId, o) && cleared.records == s.records && cleared.queue == s.queue
    requires forall id :: id in cleared.points ==> id in s.points
    requires o.storageKey in cleared.objects && cleared.objects[o.storageKey] == o.data
    requires Enqueued(env, cleared, queued, d, job.documentId, o)
    requires queued.queue == s.queue || queued.queue == s.queue + [job]
    requires RecordFits(env, r, job.documentId, o) && r.status == d.status && r.chunkCount == d.chunkCount
    ensures Inv(env, queued.(records := queued.records[r.Key() := r]), origins[job.documentId := o])
  {
    var s' := queued.(records := queued.records[r.Key() := r]);
    assert DocumentOk(env, s', job.documentId, o) by {
      DispatchRecorded(env, cleared, queued, d, job.documentId, o, r);
    }
    assert TouchesOnly(s, s', job.documentId, o) by {
      DispatchTouches(env, s, cleared, queued, d, job.documentId, o, r);
    }
    JobsStillFit(env, s.queue, origins, job.documentId, o);
    OneDocument(env, s, s', origins, job.documentId, o);
  }

  /** Storing a document's bytes touches that document only. */
  lemma StoringTouches(s: State, documentId: string, o: Origin)
    ensures TouchesOnly(s, s.(objects := s.objects[o.storageKey := o.data]), documentId, o)
  {
  }

  lemma UploadKeepsInv(env: Env, s: State, origins: map<string, Origin>, ctx: Context, filename: string, data: Bytes,
                       level: string, documentId: string, jobId: string, faults: Faults)
    requires env.Valid() && Inv(env, s, origins) && documentId !in origins && SlashFree(documentId)
    ensures var (s', r) := Upload(env, s, ctx, filename, data, level, documentId, jobId, faults);
      if r.Err? then s' == s
      else Inv(env, s', origins[documentId :=
        Origin(ctx.workspaceId, ctx.employeeId, level, r.value.filename, data, r.value.storageKey)])
  {
    var (s', r) := Upload(env, s, ctx, filename, data, level, documentId, jobId, faults);
    if r.Ok? {
      var name := NormalizeFilename(filename);
      NormalizedFilename(filename);
      var key := StorageKey(ctx.workspaceId, documentId, name);
      var o := Origin(ctx.workspaceId, ctx.employeeId, level, name, data, key);
      var job := Job(jobId, ctx.workspaceId, ctx.workspaceName, documentId, name, key, ctx.employeeId, level, 1, 3);
      var stored := s.(objects := s.objects[key := data]);
      var (queued, d) := Enqueue(env, stored, job, faults);
      assert s' == queued.(records := queued.records[r.value.Key() := r.value]);
      EnqueueEffect(env, stored, job, o, faults);
      StoringTouches(s, documentId, o);
      DispatchKeepsInv(env, s, origins, stored, queued, d, job.(maxAttempts := env.maxAttempts), o, r.value);
    }
  }

  /** A record that a caller may work on is the live record of a known document. */
  lemma AuthorizedIsLive(env: Env, s: State, origins: map<string, Origin>, ctx: Context, documentId: string)
    requires env.Valid() && Inv(env, s, origins) && Authorize(s, ctx, documentId).Ok?
    ensures documentId in origins && origins[documentId].workspaceId == ctx.workspaceId
    ensures var o := origins[documentId];
      OriginOk(env, documentId, o) && LiveOk(env, s, documentId, o, Authorize(s, ctx, documentId).value)
  {
    assert DocKey(ctx.workspaceId, documentId) in s.records;
    assert DocumentOk(env, s, documentId, origins[documentId]);
  }

  /** Clearing a document's points touches that document only. */
  lemma ClearedPoints(s: State, documentId: string, o: Origin)
    ensures TouchesOnly(s, s.(points := Others(s.points, documentId)), documentId, o)
    ensures NoPoints(Others(s.points, documentId), documentId)
  {
    OthersFacts(s.points, documentId);
  }

  /** What remains when a document is gone. */
  ghost function Removed(s: State, documentId: string, o: Origin): State {
    s.(points := Others(s.points, documentId), objects := s.objects - {o.storageKey},
       records := s.records - {DocKey(o.workspaceId, documentId)})
  }

  lemma RemovedTouches(env: Env, s: State, documentId: string, o: Origin)
    requires env.Valid()
    ensures TouchesOnly(s, Removed(s, documentId, o), documentId, o)
    ensures DocumentOk(env, Removed(s, documentId, o), documentId, o)
  {
    OthersFacts(s.points, documentId);
  }

  lemma DeleteKeepsInv(env: Env, s: State, origins: map<string, Origin>, ctx: Context, documentId: string)
    requires env.Valid() && Inv(env, s, origins)
    ensures Inv(env, Delete(s, ctx, documentId).0, origins)
    ensures Authorize(s, ctx, documentId).Ok? ==>
      documentId in origins && Delete(s, ctx, documentId).0 == Removed(s, documentId, origins[documentId])
  {
    if Authorize(s, ctx, documentId).Ok? {
      AuthorizedIsLive(env, s, origins, ctx, documentId);
      WithoutDocumentFacts(env, s, origins, documentId);
      RemovedKeepsInv(env, s, origins, documentId);
    }
  }

  lemma RemovedKeepsInv(env: Env, s: State, origins: map<string, Origin>, documentId: string)
    requires env.Valid() && Inv(env, s, origins) && documentId in origins
    ensures Inv(env, Removed(s, documentId, origins[documentId]), origins)
  {
    var o := origins[documentId];
    RemovedTouches(env, s, documentId, o);
    assert OriginOk(env, documentId, o);
    StoreSame(origins, documentId);
    JobsStillFit(env, s.queue, origins, documentId, o);
    OneDocument(env, s, Removed(s, documentId, o), origins, documentId, o);
  }

  /** A successful reindex, spelled out: the job it enqueues over the cleared index, and the record it leaves. */
  lemma ReindexShape(env: Env, s: State, origins: map<string, Origin>, ctx: Context, documentId: string,
                     jobId: string, faults: Faults) returns (job: Job)
    requires env.Valid() && Inv(env, s, origins)
    requires Reindex(env, s, ctx, documentId, jobId, faults).1.Ok?
    ensures documentId in origins && job.documentId == documentId
    ensures job.workspaceId == ctx.workspaceId && job.workspaceName == ctx.workspaceName
    ensures Reindex(env, s, ctx, documentId, jobId, faults).1.value.workspaceName == ctx.workspaceName
    ensures JobFits(env, job.(maxAttempts := env.maxAttempts), origins)
    ensures var o := origins[documentId]; var (s', r) := Reindex(env, s, ctx, documentId, jobId, faults);
      var (queued, d) := Enqueue(env, s.(points := Others(s.points, documentId)), job, faults);
      && OriginOk(env, documentId, o) && o.storageKey in s.objects && s.objects[o.storageKey] == o.data
      && s' == queued.(records := queued.records[r.value.Key() := r.value])
      && RecordFits(env, r.value, documentId, o) && r.value.status == d.status && r.value.chunkCount == d.chunkCount
  {
    AuthorizedIsLive(env, s, origins, ctx, documentId);
    WithoutDocumentFacts(env, s, origins, documentId);
    var record := Authorize(s, ctx, documentId).value;
    job := Job(jobId, ctx.workspaceId, ctx.workspaceName, documentId, record.filename, record.storageKey,
               record.uploadedBy, record.securityLevel, 1, 3);
  }

  lemma ReindexKeepsInv(env: Env, s: State, origins: map<string, Origin>, ctx: Context, documentId: string,
                        jobId: string, faults: Faults)
    requires env.Valid() && Inv(env, s, origins)
    ensures Inv(env, Reindex(env, s, ctx, documentId, jobId, faults).0, origins)
  {
    var r := Reindex(env, s, ctx, documentId, jobId, faults).1;
    if r.Ok? {
      var job := ReindexShape(env, s, origins, ctx, documentId, jobId, faults);
      var o, cleared := origins[documentId], s.(points := Others(s.points, documentId));
      var (queued, d) := Enqueue(env, cleared, job, faults);
      ClearedPoints(s, documentId, o);
      EnqueueEffect(env, cleared, job, o, faults);
      DispatchKeepsInv(env, s, origins, cleared, queued, d, job.(maxAttempts := env.maxAttempts), o, r.value);
      StoreSame(origins, documentId);
    }
  }

  // ----- the worker -----

  function Top(s: State): Job
    requires s.queue != []
  {
    s.queue[|s.queue| - 1]
  }

  function NextAttempt(env: Env, job: Job): Job {
    job.(attempt := job.attempt + 1, maxAttempts := env.maxAttempts)
  }

  /** A worker step, spelled out. */
  ghost predicate Worked(env: Env, s: State, s': State, o: Origin, run: Run)
    requires env.Valid() && s.queue != []
  {
    var job, rest := Top(s), s.queue[..|s.queue| - 1];
    var k := DocKey(o.workspaceId, job.documentId);
    && s'.objects == s.objects
    && s'.queue == (if run.wrote == Queued then rest + [NextAttempt(env, job)] else rest)
    && s'.points == (if run.succeeded then s.points + NewPoints(job, ParserOf(env, o), ChunksOf(env, o)) else s.points)
    && (run.succeeded ==> Live(s, job.documentId, o))
    && (run.wrote == Queued ==> job.attempt < job.maxAttempts)
    && if !Live(s, job.documentId, o) then s'.records == s.records
       else
         && k in s'.records
         && s'.records == s.records[k := s.records[k].(
              status := run.wrote, error := s'.records[k].error,
              chunkCount := if run.succeeded then |ChunksOf(env, o)| else if run.wrote == Queued then s.records[k].chunkCount else 0)]
  }

  lemma SetStatusShape(s: State, job: Job, status: Status, error: Option<string>, count: Option<nat>)
    ensures var k := DocKey(job.workspaceId, job.documentId); var s' := SetStatus(s, job, status, error, count);
      s' == if k in s.records
        then s.(records := s.records[k := s.records[k].(
               status := status, error := error, chunkCount := if count.Some? then count.value else s.records[k].chunkCount)])
        else s
  {
  }

  /** What a worker step finds: a fitting job for a known document, live or gone. */
  lemma TopIsKnown(env: Env, s: State, origins: map<string, Origin>)
    requires env.Valid() && Inv(env, s, origins) && s.queue != []
    ensures JobFits(env, Top(s), origins)
    ensures var d := Top(s).documentId; var o := origins[d];
      OriginOk(env, d, o) && DocumentOk(env, s, d, o)
  {
  }

  /** The state that `process_next` leaves, with the outcome of the run made explicit. */
  lemma ProcessNextShape(env: Env, s: State, faults: Faults)
    requires env.Valid() && s.queue != []
    ensures var job := Top(s);
      var r := RunPipeline(env, s.objects, s.points, job, faults.indexing);
      var started := SetStatus(s.(queue := s.queue[..|s.queue| - 1]), job, Processing, None, None);
      ProcessNext(env, s, faults).0
      == if r.Ok? then SetStatus(started.(points := r.value.points), job, Completed, None, Some(r.value.chunkCount))
         else HandleFailure(env, started, job, r.error, faults)
  {
    var job := Top(s);
    SetStatusShape(s.(queue := s.queue[..|s.queue| - 1]), job, Processing, None, None);
  }

  lemma WorkShapeLive(env: Env, s: State, o: Origin, faults: Faults)
    requires env.Valid() && s.queue != [] && JobFits(env, Top(s), map[Top(s).documentId := o])
    requires OriginOk(env, Top(s).documentId, o) && Live(s, Top(s).documentId, o) && DocumentOk(env, s, Top(s).documentId, o)
    ensures Worked(env, s, ProcessNext(env, s, faults).0, o, RunOf(env, s, faults))
  {
    PipelineOnLive(env, s, Top(s), o, faults.indexing);
    if faults.indexing.Some? {
      WorkShapeFailed(env, s, o, faults);
    } else {
      WorkShapeSucceeded(env, s, o, faults);
    }
  }

  /** The same, from what the pipeline does on the document alone. */
  lemma WorkShapeSucceeded(env: Env, s: State, o: Origin, faults: Faults)
    requires env.Valid() && s.queue != [] && Top(s).workspaceId == o.workspaceId && Live(s, Top(s).documentId, o)
    requires RunPipeline(env, s.objects, s.points, Top(s), faults.indexing)
      == Ok(Indexed(s.points + NewPoints(Top(s), ParserOf(env, o), ChunksOf(env, o)), |ChunksOf(env, o)|))
    ensures Worked(env, s, ProcessNext(env, s, faults).0, o, RunOf(env, s, faults))
  {
    ProcessNextShape(env, s, faults);
  }

  lemma WorkShapeFailed(env: Env, s: State, o: Origin, faults: Faults)
    requires env.Valid() && s.queue != [] && Top(s).workspaceId == o.workspaceId && Live(s, Top(s).documentId, o)
    requires RunPipeline(env, s.objects, s.points, Top(s), faults.indexing).Err?
    ensures Worked(env, s, ProcessNext(env, s, faults).0, o, RunOf(env, s, faults))
  {
    ProcessNextShape(env, s, faults);
  }

  lemma WorkShapeGone(env: Env, s: State, o: Origin, faults: Faults)
    requires env.Valid() && s.queue != [] && JobFits(env, Top(s), map[Top(s).documentId := o])
    requires !Live(s, Top(s).documentId, o) && o.storageKey !in s.objects
    ensures Worked(env, s, ProcessNext(env, s, faults).0, o, RunOf(env, s, faults))
  {
    ProcessNextShape(env, s, faults);
  }

  lemma WorkShape(env: Env, s: State, origins: map<string, Origin>, faults: Faults)
    requires env.Valid() && Inv(env, s, origins) && s.queue != []
    ensures Top(s).documentId in origins
    ensures Worked(env, s, ProcessNext(env, s, faults).0, origins[Top(s).documentId], RunOf(env, s, faults))
  {
    TopIsKnown(env, s, origins);
    var o := origins[Top(s).documentId];
    if Live(s, Top(s).documentId, o) {
      WorkShapeLive(env, s, o, faults);
    } else {
      WorkShapeGone(env, s, o, faults);
    }
  }

  /** Taking a job from the end leaves every other document's jobs in the queue. */
  lemma PendingRest(queue: seq<Job>, documentId: string)
    requires queue != [] && Pending(queue, documentId) && queue[|queue| - 1].documentId != documentId
    ensures Pending(queue[..|queue| - 1], documentId)
  {
    var i :| 0 <= i < |queue| && queue[i].documentId == documentId;
    assert queue[..|queue| - 1][i] == queue[i];
  }

  lemma WorkQueue(env: Env, s: State, s': State, origins: map<string, Origin>, o: Origin, run: Run)
    requires env.Valid() && s.queue != [] && Worked(env, s, s', o, run)
    requires forall i :: 0 <= i < |s.queue| ==> JobFits(env, s.queue[i], origins)
    ensures forall d :: d != Top(s).documentId && Pending(s.queue, d) ==> Pending(s'.queue, d)
    ensures run.wrote == Queued ==> Pending(s'.queue, Top(s).documentId)
    ensures forall i :: 0 <= i < |s'.queue| ==> JobFits(env, s'.queue[i], origins)
  {
    forall d | d != Top(s).documentId && Pending(s.queue, d)
      ensures Pending(s'.queue, d)
    {
      PendingRest(s.queue, d);
      PendingGrows(s.queue[..|s.queue| - 1], NextAttempt(env, Top(s)));
    }
    PendingGrows(s.queue[..|s.queue| - 1], NextAttempt(env, Top(s)));
  }

  lemma WorkDocument(env: Env, s: State, s': State, o: Origin, run: Run)
    requires env.Valid() && s.queue != [] && Worked(env, s, s', o, run)
    requires JobFits(env, Top(s), map[Top(s).documentId := o]) && DocumentOk(env, s, Top(s).documentId, o)
    requires run.wrote == Queued ==> Pending(s'.queue, Top(s).documentId)
    requires run.wrote != Processing && (run.wrote == Completed <==> run.succeeded)
    ensures DocumentOk(env, s', Top(s).documentId, o)
    ensures forall d :: d != Top(s).documentId ==> SamePoints(s.points, s'.points, d)
  {
    if Live(s, Top(s).documentId, o) {
      UpsertGivesExact(env, s.points, Top(s), o);
    }
  }

  lemma WorkKeepsInv(env: Env, s: State, origins: map<string, Origin>, faults: Faults)
    requires env.Valid() && Inv(env, s, origins)
    ensures Inv(env, ProcessNext(env, s, faults).0, origins)
  {
    if s.queue != [] {
      WorkShape(env, s, origins, faults);
      WorkedKeepsInv(env, s, ProcessNext(env, s, faults).0, origins, RunOf(env, s, faults));
    }
  }

  lemma WorkTouches(env: Env, s: State, s': State, o: Origin, run: Run)
    requires env.Valid() && s.queue != [] && Worked(env, s, s', o, run)
    requires forall d :: d != Top(s).documentId ==> SamePoints(s.points, s'.points, d)
    requires forall d :: d != Top(s).documentId && Pending(s.queue, d) ==> Pending(s'.queue, d)
    ensures TouchesOnly(s, s', Top(s).documentId, o)
    ensures s'.records.Keys == s.records.Keys
    ensures forall id :: id in s'.points ==> id in s.points || id.documentId == Top(s).documentId
  {
  }

  lemma WorkedKeepsInv(env: Env, s: State, s': State, origins: map<string, Origin>, run: Run)
    requires env.Valid() && Inv(env, s, origins) && s.queue != [] && Top(s).documentId in origins
    requires Worked(env, s, s', origins[Top(s).documentId], run)
    requires run.wrote != Processing && (run.wrote == Completed <==> run.succeeded)
    ensures Inv(env, s', origins)
  {
    var documentId, o := Top(s).documentId, origins[Top(s).documentId];
    TopIsKnown(env, s, origins);
    WorkQueue(env, s, s', origins, o, run);
    assert DocumentOk(env, s', documentId, o) by {
      WorkDocument(env, s, s', o, run);
    }
    assert TouchesOnly(s, s', documentId, o) && s'.records.Keys == s.records.Keys
      && (forall id :: id in s'.points ==> id in s.points || id.documentId == documentId) by {
      WorkDocument(env, s, s', o, run);
      WorkTouches(env, s, s', o, run);
    }
    StoreSame(origins, documentId);
    OneDocument(env, s, s', origins, documentId, o);
  }
}
