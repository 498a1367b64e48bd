/**
 The workspace's display name in the payload of points.  It comes with the caller, so the callers of
 one workspace may bring different names, and records and points may then disagree about it.
 */
module LifecycleNames {
  import opened Documents
  import opened Lifecycle
  import opened LifecycleRuns
  import opened LifecycleInvariant
  import opened LifecycleTheorems
  import opened Security
  import opened Text
  import opened Wrappers
  import Chunker

  // ----- what a step does to names -----

  /** What concerns names: the job that a step dispatches or runs, and what the step does with it. */
  datatype Effect = Effect(documentId: string, workspaceId: string, name: string, wrote: bool, recorded: bool)

  /** All points of the document carry the workspace and the name; the others are as before. */
  ghost predicate Written(points: map<PointId, Point>, points': map<PointId, Point>, e: Effect) {
    forall id :: id in points' ==>
      if id.documentId == e.documentId then points'[id].workspaceId == e.workspaceId && points'[id].workspaceName == e.name
      else id in points && points'[id] == points[id]
  }

  ghost predicate Shrunk(points: map<PointId, Point>, points': map<PointId, Point>) {
    forall id :: id in points' ==> id in points && points'[id] == points[id]
  }

  ghost predicate PointsStep(points: map<PointId, Point>, points': map<PointId, Point>, e: Effect) {
    && (if e.wrote then Written(points, points', e) else Shrunk(points, points'))
    && (e.recorded ==> forall id :: id in points' && id.documentId == e.documentId ==> points'[id].workspaceName == e.name)
  }

  ghost predicate RecordsStep(records: map<DocKey, Record>, records': map<DocKey, Record>, e: Effect) {
    forall k :: k in records' ==>
      if e.recorded && k == DocKey(e.workspaceId, e.documentId) then records'[k].workspaceName == e.name
      else k in records && records'[k].workspaceName == records[k].workspaceName
  }

  ghost predicate QueueStep(queue: seq<Job>, queue': seq<Job>, e: Effect) {
    forall i :: 0 <= i < |queue'| ==>
      || (i < |queue| && queue'[i].workspaceId == queue[i].workspaceId && queue'[i].workspaceName == queue[i].workspaceName)
      || (queue'[i].workspaceId == e.workspaceId && queue'[i].workspaceName == e.name)
  }

  ghost predicate NameStep(s: State, s': State, e: Effect) {
    && PointsStep(s.points, s'.points, e)
    && RecordsStep(s.records, s'.records, e)
    && QueueStep(s.queue, s'.queue, e)
  }

  ghost function IndexedAs(sys: System, e: Effect): map<string, string> {
    if e.wrote then sys.indexedAs[e.documentId := e.name] else sys.indexedAs
  }

  /** A dispatch for a document without points writes all its points or none. */
  lemma EnqueueNames(env: Env, s: State, job: Job, faults: Faults)
    requires env.Valid() && NoPoints(s.points, job.documentId)
    ensures var (s', d) := Enqueue(env, s, job, faults);
      var e := Effect(job.documentId, job.workspaceId, job.workspaceName, d.status == Completed, true);
      PointsStep(s.points, s'.points, e) && QueueStep(s.queue, s'.queue, e) && s'.records == s.records
    ensures env.mode == InProcess ==> Enqueue(env, s, job, faults).0.queue == s.queue
  {
    forall id | id in s.points
      ensures id.documentId != job.documentId
    {
      assert id == PointId(id.documentId, id.index);
    }
  }

  lemma UploadNames(env: Env, s: State, ctx: Context, filename: string, data: Bytes,
                    level: string, documentId: string, jobId: string, faults: Faults)
    requires env.Valid() && NoPoints(s.points, documentId)
    ensures var (s', r) := Upload(env, s, ctx, filename, data, level, documentId, jobId, faults);
      if r.Err? then s' == s
      else NameStep(s, s', Effect(documentId, ctx.workspaceId, ctx.workspaceName, r.value.status == Completed, true))
    ensures env.mode == InProcess ==> Upload(env, s, ctx, filename, data, level, documentId, jobId, faults).0.queue == s.queue
  {
    var r := Upload(env, s, ctx, filename, data, level, documentId, jobId, faults).1;
    if r.Ok? {
      var name := NormalizeFilename(filename);
      var key := StorageKey(ctx.workspaceId, documentId, name);
      var job := Job(jobId, ctx.workspaceId, ctx.workspaceName, documentId, name, key, ctx.employeeId, level, 1, 3);
      EnqueueNames(env, s.(objects := s.objects[key := data]), job, faults);
    }
  }

  /** A permitted reindex starts by removing the points of this document and no others. */
  ghost predicate Clears(s: State, ctx: Context, documentId: string) {
    Authorize(s, ctx, documentId).Ok? ==>
      && WithoutDocument(s.points, ctx.workspaceId, documentId) == Others(s.points, documentId)
      && Authorize(s, ctx, documentId).value.Key() == DocKey(ctx.workspaceId, documentId)
  }

  lemma ReindexNames(env: Env, s: State, ctx: Context, documentId: string, jobId: string, faults: Faults)
    requires env.Valid() && Clears(s, ctx, documentId)
    ensures var (s', r) := Reindex(env, s, ctx, documentId, jobId, faults);
      if r.Err? then s' == s
      else NameStep(s, s', Effect(documentId, ctx.workspaceId, ctx.workspaceName, r.value.status == Completed, true))
    ensures env.mode == InProcess ==> Reindex(env, s, ctx, documentId, jobId, faults).0.queue == s.queue
  {
    var r := Reindex(env, s, ctx, documentId, jobId, faults).1;
    if r.Ok? {
      var record := Authorize(s, ctx, documentId).value;
      var job := Job(jobId, ctx.workspaceId, ctx.workspaceName, documentId, record.filename, record.storageKey,
                     record.uploadedBy, record.securityLevel, 1, 3);
      OthersFacts(s.points, documentId);
      EnqueueNames(env, s.(points := Others(s.points, documentId)), job, faults);
    }
  }

  lemma DeleteNames(s: State, ctx: Context, documentId: string, e: Effect)
    requires !e.wrote && !e.recorded
    ensures NameStep(s, Delete(s, ctx, documentId).0, e)
    ensures Delete(s, ctx, documentId).0.queue == s.queue
  {
  }

  /** The effect of a worker step: it runs a job, and changes no name in records and jobs. */
  function WorkEffect(env: Env, s: State, faults: Faults): Effect
    requires env.Valid() && s.queue != []
  {
    Effect(Top(s).documentId, Top(s).workspaceId, Top(s).workspaceName, RunOf(env, s, faults).succeeded, false)
  }

  lemma WorkNames(env: Env, s: State, o: Origin, faults: Faults)
    requires env.Valid() && s.queue != [] && Worked(env, s, ProcessNext(env, s, faults).0, o, RunOf(env, s, faults))
    requires NoPoints(s.points, Top(s).documentId) || ExactPoints(env, s.points, Top(s).documentId, o)
    ensures NameStep(s, ProcessNext(env, s, faults).0, WorkEffect(env, s, faults))
  {
    UpsertWritesAll(env, s.points, Top(s), o);
  }

  /** The chunks of a document overwrite whatever points it has. */
  lemma UpsertWritesAll(env: Env, points: map<PointId, Point>, job: Job, o: Origin)
    requires env.Valid() && (NoPoints(points, job.documentId) || ExactPoints(env, points, job.documentId, o))
    ensures Written(points, points + NewPoints(job, ParserOf(env, o), ChunksOf(env, o)),
                    Effect(job.documentId, job.workspaceId, job.workspaceName, true, false))
  {
    var added := NewPoints(job, ParserOf(env, o), ChunksOf(env, o));
    forall id | id in points && id.documentId == job.documentId
      ensures id in added
    {
      assert id == PointId(job.documentId, id.index);
    }
  }

  // ----- the effect of every step -----

  lemma FreshHasNoPoints(env: Env, sys: System, documentId: string)
    requires env.Valid() && Inv(env, sys.state, sys.origins) && documentId !in sys.origins
    ensures NoPoints(sys.state.points, documentId)
  {
  }

  lemma ReindexFinds(env: Env, s: State, origins: map<string, Origin>, ctx: Context, documentId: string)
    requires env.Valid() && Inv(env, s, origins)
    ensures Clears(s, ctx, documentId)
  {
    if Authorize(s, ctx, documentId).Ok? {
      AuthorizedIsLive(env, s, origins, ctx, documentId);
      WithoutDocumentFacts(env, s, origins, documentId);
    }
  }

  lemma WorkFinds(env: Env, s: State, origins: map<string, Origin>, faults: Faults) returns (o: Origin)
    requires env.Valid() && Inv(env, s, origins) && s.queue != []
    ensures Worked(env, s, ProcessNext(env, s, faults).0, o, RunOf(env, s, faults))
    ensures NoPoints(s.points, Top(s).documentId) || ExactPoints(env, s.points, Top(s).documentId, o)
  {
    o := origins[Top(s).documentId];
    TopIsKnown(env, s, origins);
    WorkShape(env, s, origins, faults);
  }

  /** The caller's workspace and name, or those of the job that a worker runs. */
  ghost predicate ComesFrom(sys: System, step: Step, e: Effect) {
    match step
    case DoUpload(ctx, _, _, _, _, _, _) => e.workspaceId == ctx.workspaceId && e.name == ctx.workspaceName
    case DoReindex(ctx, _, _, _) => e.workspaceId == ctx.workspaceId && e.name == ctx.workspaceName
    case DoDelete(ctx, _) => e.workspaceId == ctx.workspaceId && e.name == ctx.workspaceName
    case DoWork(_) => sys.state.queue != [] ==> e.workspaceId == Top(sys.state).workspaceId && e.name == Top(sys.state).workspaceName
  }

  /** One step, as far as names are concerned. */
  ghost predicate Stepped(env: Env, sys: System, step: Step, sys': System, e: Effect) {
    && ComesFrom(sys, step, e)
    && (NameStep(sys.state, sys'.state, e) || (sys'.state == sys.state && !e.wrote))
    && (step.DoWork? && sys.state.queue == [] ==> sys'.state == sys.state)
    && sys'.indexedAs == IndexedAs(sys, e)
    && (env.mode == InProcess && sys.state.queue == [] ==> sys'.state.queue == [] && (e.wrote ==> e.recorded))
  }

  lemma StepHasEffect(env: Env, sys: System, step: Step) returns (e: Effect)
    requires env.Valid() && Inv(env, sys.state, sys.origins) && Enabled(sys, step)
    ensures Stepped(env, sys, step, Take(env, sys, step), e)
  {
    match step
    case DoUpload(ctx, filename, data, level, documentId, jobId, faults) =>
      FreshHasNoPoints(env, sys, documentId);
      e := UploadEffect(env, sys, step);
    case DoReindex(ctx, documentId, jobId, faults) =>
      ReindexFinds(env, sys.state, sys.origins, ctx, documentId);
      e := ReindexEffect(env, sys, step);
    case DoDelete(ctx, documentId) =>
      e := Effect(documentId, ctx.workspaceId, ctx.workspaceName, false, false);
      DeleteNames(sys.state, ctx, documentId, e);
    case DoWork(faults) =>
      if sys.state.queue == [] {
        e := Effect("", "", "", false, false);
      } else {
        e := RunEffect(env, sys, faults);
      }
  }

  lemma RunEffect(env: Env, sys: System, faults: Faults) returns (e: Effect)
    requires env.Valid() && Inv(env, sys.state, sys.origins) && sys.state.queue != []
    ensures Stepped(env, sys, DoWork(faults), Take(env, sys, DoWork(faults)), e)
  {
    var o := WorkFinds(env, sys.state, sys.origins, faults);
    e := WorkEffect(env, sys.state, faults);
    WorkedEffect(env, sys, o, faults);
  }

  lemma WorkedEffect(env: Env, sys: System, o: Origin, faults: Faults)
    requires env.Valid() && sys.state.queue != []
    requires Worked(env, sys.state, ProcessNext(env, sys.state, faults).0, o, RunOf(env, sys.state, faults))
    requires NoPoints(sys.state.points, Top(sys.state).documentId) || ExactPoints(env, sys.state.points, Top(sys.state).documentId, o)
    ensures Stepped(env, sys, DoWork(faults), Take(env, sys, DoWork(faults)), WorkEffect(env, sys.state, faults))
  {
    WorkNames(env, sys.state, o, faults);
  }

  lemma UploadEffect(env: Env, sys: System, step: Step) returns (e: Effect)
    requires env.Valid() && step.DoUpload? && NoPoints(sys.state.points, step.documentId)
    ensures Stepped(env, sys, step, Take(env, sys, step), e)
  {
    UploadNames(env, sys.state, step.ctx, step.filename, step.data, step.level, step.documentId, step.jobId, step.faults);
    var r := Upload(env, sys.state, step.ctx, step.filename, step.data, step.level, step.documentId, step.jobId, step.faults).1;
    e := Effect(step.documentId, step.ctx.workspaceId, step.ctx.workspaceName, r.Ok? && r.value.status == Completed, r.Ok?);
  }

  lemma ReindexEffect(env: Env, sys: System, step: Step) returns (e: Effect)
    requires env.Valid() && step.DoReindex? && Clears(sys.state, step.ctx, step.documentId)
    ensures Stepped(env, sys, step, Take(env, sys, step), e)
  {
    ReindexNames(env, sys.state, step.ctx, step.documentId, step.jobId, step.faults);
    var r := Reindex(env, sys.state, step.ctx, step.documentId, step.jobId, step.faults).1;
    e := Effect(step.documentId, step.ctx.workspaceId, step.ctx.workspaceName, r.Ok? && r.value.status == Completed, r.Ok?);
  }

  // ----- runs with given callers -----

  ghost predicate StepFrom(callers: iset<Context>, step: Step) {
    match step
    case DoUpload(ctx, _, _, _, _, _, _) => ctx in callers
    case DoReindex(ctx, _, _, _) => ctx in callers
    case DoDelete(ctx, _) => ctx in callers
    case DoWork(_) => true
  }

  ghost predicate StepsFrom(callers: iset<Context>, steps: seq<Step>) {
    forall i :: 0 <= i < |steps| ==> StepFrom(callers, steps[i])
  }

  ghost predicate ReachableFrom(env: Env, callers: iset<Context>, sys: System)
    requires env.Valid()
  {
    exists steps :: StepsFrom(callers, steps) && Execute(env, Empty, steps) == Some(sys)
  }

  /** One name for each workspace. */
  ghost predicate Uniform(callers: iset<Context>) {
    forall a, b :: a in callers && b in callers && a.workspaceId == b.workspaceId ==> a.workspaceName == b.workspaceName
  }

  /** Some caller brings this name for the workspace. */
  ghost predicate Brought(callers: iset<Context>, workspaceId: string, name: string) {
    exists ctx :: ctx in callers && ctx.workspaceId == workspaceId && ctx.workspaceName == name
  }

  // ----- invariants about names -----

  /** All points of a document carry one name, that of the document's last successful run. */
  ghost predicate CarryLastName(sys: System) {
    forall id :: id in sys.state.points ==>
      id.documentId in sys.indexedAs && sys.state.points[id].workspaceName == sys.indexedAs[id.documentId]
  }

  /** Every name in records, jobs and points was brought by some caller. */
  ghost predicate NamesBrought(callers: iset<Context>, s: State) {
    && (forall k :: k in s.records ==> Brought(callers, k.workspaceId, s.records[k].workspaceName))
    && (forall i :: 0 <= i < |s.queue| ==> Brought(callers, s.queue[i].workspaceId, s.queue[i].workspaceName))
    && (forall id :: id in s.points ==> Brought(callers, s.points[id].workspaceId, s.points[id].workspaceName))
  }

  /** The points of a document carry the name in its record. */
  ghost predicate FollowRecords(s: State) {
    forall id :: id in s.points ==>
      var k := DocKey(s.points[id].workspaceId, id.documentId);
      k in s.records ==> s.points[id].workspaceName == s.records[k].workspaceName
  }

  lemma EffectKeepsLastName(env: Env, sys: System, step: Step, sys': System, e: Effect)
    requires Stepped(env, sys, step, sys', e) && CarryLastName(sys)
    ensures CarryLastName(sys')
  {
  }

  lemma EffectKeepsBrought(env: Env, callers: iset<Context>, sys: System, step: Step, sys': System, e: Effect)
    requires Stepped(env, sys, step, sys', e) && StepFrom(callers, step) && NamesBrought(callers, sys.state)
    ensures NamesBrought(callers, sys'.state)
  {
    assert sys'.state != sys.state ==> Brought(callers, e.workspaceId, e.name);
  }

  lemma EffectFollowsRecords(env: Env, sys: System, step: Step, sys': System, e: Effect)
    requires Stepped(env, sys, step, sys', e) && env.mode == InProcess
    requires sys.state.queue == [] && FollowRecords(sys.state)
    ensures sys'.state.queue == [] && FollowRecords(sys'.state)
  {
  }

  lemma {:induction false} RunsKeepLastName(env: Env, steps: seq<Step>)
    requires env.Valid()
    ensures var r := Execute(env, Empty, steps); r.Some? ==> CarryLastName(r.value)
    decreases |steps|
  {
    if steps != [] {
      var before, last := steps[..|steps| - 1], steps[|steps| - 1];
      RunsKeepLastName(env, before);
      RunsKeepInv(env, Empty, before);
      var r := Execute(env, Empty, before);
      if r.Some? && Enabled(r.value, last) {
        var e := StepHasEffect(env, r.value, last);
        EffectKeepsLastName(env, r.value, last, Take(env, r.value, last), e);
      }
    }
  }

  /** In every reachable state the points of a document carry one name, that of its last successful run. */
  lemma PointsCarryLastName(env: Env, sys: System)
    requires env.Valid() && Reachable(env, sys)
    ensures CarryLastName(sys)
  {
    var steps :| Execute(env, Empty, steps) == Some(sys);
    RunsKeepLastName(env, steps);
  }

  /** The names in a state are those that callers brought, and documents indexed on the spot follow their records. */
  ghost predicate NamesOk(env: Env, callers: iset<Context>, s: State) {
    && NamesBrought(callers, s)
    && (env.mode == InProcess ==> s.queue == [] && FollowRecords(s))
  }

  lemma {:induction false} RunsKeepNames(env: Env, callers: iset<Context>, steps: seq<Step>)
    requires env.Valid() && StepsFrom(callers, steps)
    ensures var r := Execute(env, Empty, steps); r.Some? ==> NamesOk(env, callers, r.value.state)
    decreases |steps|
  {
    if steps != [] {
      var before, last := steps[..|steps| - 1], steps[|steps| - 1];
      RunsKeepNames(env, callers, before);
      RunsKeepInv(env, Empty, before);
      var r := Execute(env, Empty, before);
      if r.Some? && Enabled(r.value, last) {
        var e := StepHasEffect(env, r.value, last);
        EffectKeepsNames(env, callers, r.value, last, Take(env, r.value, last), e);
      }
    }
  }

  lemma EffectKeepsNames(env: Env, callers: iset<Context>, sys: System, step: Step, sys': System, e: Effect)
    requires Stepped(env, sys, step, sys', e) && StepFrom(callers, step) && NamesOk(env, callers, sys.state)
    ensures NamesOk(env, callers, sys'.state)
  {
    EffectKeepsBrought(env, callers, sys, step, sys', e);
    if env.mode == InProcess {
      EffectFollowsRecords(env, sys, step, sys', e);
    }
  }

  // ----- when records and points agree -----

  /** Indexing on the spot, or one name for each workspace: records and points carry the same name. */
  lemma NamesFollowRecords(env: Env, callers: iset<Context>, sys: System)
    requires env.Valid() && ReachableFrom(env, callers, sys) && (env.mode == InProcess || Uniform(callers))
    ensures FollowRecords(sys.state)
  {
    var steps :| StepsFrom(callers, steps) && Execute(env, Empty, steps) == Some(sys);
    RunsKeepNames(env, callers, steps);
    if Uniform(callers) {
      OneNameFollows(callers, sys.state);
    }
  }

  lemma OneNameFollows(callers: iset<Context>, s: State)
    requires Uniform(callers) && NamesBrought(callers, s)
    ensures FollowRecords(s)
  {
    forall id | id in s.points && DocKey(s.points[id].workspaceId, id.documentId) in s.records
      ensures s.points[id].workspaceName == s.records[DocKey(s.points[id].workspaceId, id.documentId)].workspaceName
    {
      var k := DocKey(s.points[id].workspaceId, id.documentId);
      assert Brought(callers, k.workspaceId, s.points[id].workspaceName);
      assert Brought(callers, k.workspaceId, s.records[k].workspaceName);
    }
  }

  // ----- and when they do not -----

  /** The file fits the limit and parses. */
  predicate CanUpload(env: Env, filename: string, data: Bytes) {
    |data| <= env.maxDocumentBytes && Parse(env, NormalizeFilename(filename), data).Ok?
  }

  ghost predicate Uploadable(env: Env) {
    exists filename, data :: CanUpload(env, filename, data)
  }

  const NOTHING_FAILS := Faults(None, None)
  const DOC := "d"

  /**
   One caller uploads a document, another one of the same workspace has it indexed again, and the
   worker takes both jobs: the newer one first.
   */
  function StaleRun(a: Context, b: Context, filename: string, data: Bytes): seq<Step> {
    TwoDispatches(a, b, filename, data) + [DoWork(NOTHING_FAILS)] + [DoWork(NOTHING_FAILS)]
  }

  function TwoDispatches(a: Context, b: Context, filename: string, data: Bytes): seq<Step> {
    [DoUpload(a, filename, data, GENERAL, DOC, "1", NOTHING_FAILS)] + [DoReindex(b, DOC, "2", NOTHING_FAILS)]
  }

  lemma GeneralIsOpen(role: string)
    ensures LevelError(role, GENERAL) == None
  {
    assert !IsSpace(GENERAL[0]) && !IsSpace(GENERAL[|GENERAL| - 1]);
    assert Strip(GENERAL) == GENERAL[0..|GENERAL|] == GENERAL;
    assert GENERAL in AllowedLevels(role) by {
      assert AllowedLevels(role)[0] == GENERAL;
    }
  }

  lemma ExecuteOneMore(env: Env, steps: seq<Step>, sys: System, step: Step)
    requires env.Valid() && Execute(env, Empty, steps) == Some(sys) && Enabled(sys, step)
    ensures Execute(env, Empty, steps + [step]) == Some(Take(env, sys, step))
  {
    assert (steps + [step])[..|steps + [step]| - 1] == steps;
  }

  /** A stored document's job is on top and nothing fails: its points are overwritten and its record is completed. */
  lemma CleanWork(env: Env, s: State, older: seq<Job>, job: Job, parsed: Extracted)
    requires env.Valid() && s.queue == older + [job] && job.storageKey in s.objects
    requires Parse(env, job.filename, s.objects[job.storageKey]) == Ok(parsed)
    requires DocKey(job.workspaceId, job.documentId) in s.records
    ensures var k := DocKey(job.workspaceId, job.documentId); var s' := ProcessNext(env, s, NOTHING_FAILS).0;
      && s'.queue == older && s'.objects == s.objects
      && s'.points == s.points + NewPoints(job, parsed.parserName, Chunker.Chunks(env.chunker, parsed.text))
      && k in s'.records && s'.records[k].status == Completed && s'.records[k].workspaceName == s.records[k].workspaceName
  {
    assert s.queue[|s.queue| - 1] == job && s.queue[..|s.queue| - 1] == older;
  }

  /** The state after the upload and the reindex. */
  ghost predicate BothQueued(s: State, a: Context, b: Context, name: string, data: Bytes, older: Job, newer: Job) {
    var k := DocKey(a.workspaceId, DOC);
    && s.queue == [older] + [newer]
    && older.workspaceId == newer.workspaceId == a.workspaceId && older.workspaceName == a.workspaceName
    && older.documentId == newer.documentId == DOC && older.filename == newer.filename == name
    && older.storageKey == newer.storageKey && older.storageKey in s.objects && s.objects[older.storageKey] == data
    && k in s.records && s.records[k].workspaceName == b.workspaceName
  }

  lemma UploadThenReindex(env: Env, a: Context, b: Context, filename: string, data: Bytes) returns (sys: System, older: Job, newer: Job)
    requires env.Valid() && env.mode == Redis && CanUpload(env, filename, data) && a.workspaceId == b.workspaceId
    ensures Execute(env, Empty, TwoDispatches(a, b, filename, data)) == Some(sys)
    ensures BothQueued(sys.state, a, b, NormalizeFilename(filename), data, older, newer)
  {
    var up, re := DoUpload(a, filename, data, GENERAL, DOC, "1", NOTHING_FAILS), DoReindex(b, DOC, "2", NOTHING_FAILS);
    assert [] + [up] == [up];
    ExecuteOneMore(env, [], Empty, up);
    var sys1 := Take(env, Empty, up);
    older := UploadQueues(env, a, filename, data);
    ExecuteOneMore(env, [up], sys1, re);
    sys := Take(env, sys1, re);
    newer := ReindexQueues(env, sys1.state, a, b, filename, data, older);
  }

  lemma UploadQueues(env: Env, a: Context, filename: string, data: Bytes) returns (job: Job)
    requires env.Valid() && env.mode == Redis && CanUpload(env, filename, data)
    ensures var (s, r) := Upload(env, Empty.state, a, filename, data, GENERAL, DOC, "1", NOTHING_FAILS);
      && r.Ok? && s == State(map[job.storageKey := data], [job], map[], map[DocKey(a.workspaceId, DOC) := r.value])
      && job == Job("1", a.workspaceId, a.workspaceName, DOC, NormalizeFilename(filename), job.storageKey, a.employeeId,
                    GENERAL, 1, env.maxAttempts)
      && r.value.storageKey == job.storageKey && r.value.filename == job.filename && r.value.securityLevel == GENERAL
      && r.value.workspaceId == a.workspaceId && r.value.documentId == DOC
  {
    var name := NormalizeFilename(filename);
    job := Job("1", a.workspaceId, a.workspaceName, DOC, name, StorageKey(a.workspaceId, DOC, name), a.employeeId,
               GENERAL, 1, env.maxAttempts);
  }

  lemma ReindexQueues(env: Env, s: State, a: Context, b: Context, filename: string, data: Bytes, older: Job) returns (newer: Job)
    requires env.Valid() && env.mode == Redis && CanUpload(env, filename, data) && a.workspaceId == b.workspaceId
    requires s == Upload(env, Empty.state, a, filename, data, GENERAL, DOC, "1", NOTHING_FAILS).0
    requires older == Job("1", a.workspaceId, a.workspaceName, DOC, NormalizeFilename(filename), older.storageKey, a.employeeId,
                          GENERAL, 1, env.maxAttempts)
    requires s.queue == [older] && s.points == map[] && s.objects == map[older.storageKey := data]
    requires DocKey(a.workspaceId, DOC) in s.records
    requires var r := s.records[DocKey(a.workspaceId, DOC)];
      && r.storageKey == older.storageKey && r.filename == older.filename && r.securityLevel == GENERAL
      && r.workspaceId == a.workspaceId && r.documentId == DOC
    ensures BothQueued(Reindex(env, s, b, DOC, "2", NOTHING_FAILS).0, a, b, NormalizeFilename(filename), data, older, newer)
  {
    GeneralIsOpen(b.role);
    var r := s.records[DocKey(a.workspaceId, DOC)];
    newer := Job("2", b.workspaceId, b.workspaceName, DOC, r.filename, r.storageKey, r.uploadedBy, r.securityLevel, 1, env.maxAttempts);
  }

  /**
   With a Redis queue, two callers who bring different names for one workspace can leave a completed
   document whose record carries the name of the one, and whose points carry the name of the other.
   */
  lemma StaleNames(env: Env, a: Context, b: Context, filename: string, data: Bytes) returns (sys: System)
    requires env.Valid() && env.mode == Redis && CanUpload(env, filename, data) && a.workspaceId == b.workspaceId
    ensures Execute(env, Empty, StaleRun(a, b, filename, data)) == Some(sys)
    ensures var k, id := DocKey(a.workspaceId, DOC), PointId(DOC, 0);
      && k in sys.state.records && sys.state.records[k].status == Completed
      && sys.state.records[k].workspaceName == b.workspaceName
      && id in sys.state.points && sys.state.points[id].workspaceName == a.workspaceName
  {
    var sys2, older, newer := UploadThenReindex(env, a, b, filename, data);
    OlderJobLast(env, sys2.state, a, b, NormalizeFilename(filename), data, older, newer);
    sys := WorkTwice(env, TwoDispatches(a, b, filename, data), sys2);
  }

  lemma WorkTwice(env: Env, steps: seq<Step>, before: System) returns (sys: System)
    requires env.Valid() && Execute(env, Empty, steps) == Some(before)
    requires before.state.queue != [] && ProcessNext(env, before.state, NOTHING_FAILS).0.queue != []
    ensures Execute(env, Empty, steps + [DoWork(NOTHING_FAILS)] + [DoWork(NOTHING_FAILS)]) == Some(sys)
    ensures sys.state == ProcessNext(env, ProcessNext(env, before.state, NOTHING_FAILS).0, NOTHING_FAILS).0
  {
    var work := DoWork(NOTHING_FAILS);
    ExecuteOneMore(env, steps, before, work);
    ExecuteOneMore(env, steps + [work], Take(env, before, work), work);
    sys := Take(env, Take(env, before, work), work);
  }

  /** Two worker steps take the newer job and then the older one. */
  lemma OlderJobLast(env: Env, s: State, a: Context, b: Context, name: string, data: Bytes, older: Job, newer: Job)
    requires env.Valid() && BothQueued(s, a, b, name, data, older, newer) && Parse(env, name, data).Ok?
    ensures var s' := ProcessNext(env, ProcessNext(env, s, NOTHING_FAILS).0, NOTHING_FAILS).0;
      var k, id := DocKey(a.workspaceId, DOC), PointId(DOC, 0);
      && k in s'.records && s'.records[k].status == Completed && s'.records[k].workspaceName == b.workspaceName
      && id in s'.points && s'.points[id].workspaceName == a.workspaceName
    ensures s.queue != [] && ProcessNext(env, s, NOTHING_FAILS).0.queue != []
  {
    var parsed := Parse(env, name, data).value;
    CleanWork(env, s, [older], newer, parsed);
    assert [] + [older] == [older];
    CleanWork(env, ProcessNext(env, s, NOTHING_FAILS).0, [], older, parsed);
    OriginsHaveChunks(env, Origin(a.workspaceId, a.employeeId, GENERAL, name, data, older.storageKey));
  }

  /** Without a document that can be uploaded there is never a record. */
  lemma {:induction false} NothingUploaded(env: Env, steps: seq<Step>)
    requires env.Valid() && !Uploadable(env)
    ensures var r := Execute(env, Empty, steps); r.Some? ==> r.value.state.records == map[]
    decreases |steps|
  {
    if steps != [] {
      var before, last := steps[..|steps| - 1], steps[|steps| - 1];
      NothingUploaded(env, before);
      var r := Execute(env, Empty, before);
      if r.Some? && Enabled(r.value, last) {
        NoRecordAppears(env, r.value, last);
      }
    }
  }

  lemma NoRecordAppears(env: Env, sys: System, step: Step)
    requires env.Valid() && !Uploadable(env) && sys.state.records == map[]
    ensures Take(env, sys, step).state.records == map[]
  {
    match step
    case DoUpload(ctx, filename, data, level, documentId, jobId, faults) =>
      assert !CanUpload(env, filename, data);
    case DoReindex(ctx, documentId, jobId, faults) =>
    case DoDelete(ctx, documentId) =>
    case DoWork(faults) =>
      WorkAddsNoRecord(env, sys.state, faults);
  }

  /** Completed documents have points with the name in their record. */
  ghost predicate CompletedAgree(s: State) {
    forall k, i: nat :: k in s.records && s.records[k].status == Completed && PointId(k.documentId, i) in s.points ==>
      s.points[PointId(k.documentId, i)].workspaceName == s.records[k].workspaceName
  }

  ghost predicate AgreeWhenReached(env: Env, callers: iset<Context>, sys: System)
    requires env.Valid()
  {
    ReachableFrom(env, callers, sys) ==> CompletedAgree(sys.state)
  }

  lemma FollowingAgrees(env: Env, sys: System)
    requires env.Valid() && Inv(env, sys.state, sys.origins) && FollowRecords(sys.state)
    ensures CompletedAgree(sys.state)
  {
    forall k, i: nat | k in sys.state.records && PointId(k.documentId, i) in sys.state.points
      ensures sys.state.points[PointId(k.documentId, i)].workspaceName == sys.state.records[k].workspaceName
    {
      PointOwner(env, sys.state, sys.origins, PointId(k.documentId, i));
      assert k == DocKey(k.workspaceId, k.documentId);
    }
  }

  /**
   Exactly when completed documents are indexed under the name in their record, in every state that
   these callers can reach: if and only if documents are indexed on the spot, or the callers of each
   workspace all bring the same name, or no document can be uploaded at all.
   */
  lemma NamesAgreeExactly(env: Env, callers: iset<Context>)
    requires env.Valid()
    ensures (forall sys :: AgreeWhenReached(env, callers, sys))
      <==> env.mode == InProcess || Uniform(callers) || !Uploadable(env)
  {
    if env.mode == InProcess || Uniform(callers) || !Uploadable(env) {
      forall sys
        ensures AgreeWhenReached(env, callers, sys)
      {
        if ReachableFrom(env, callers, sys) {
          NamesAgree(env, callers, sys);
        }
      }
    } else {
      var sys := NamesDisagree(env, callers);
      assert !AgreeWhenReached(env, callers, sys);
    }
  }

  lemma NamesDisagree(env: Env, callers: iset<Context>) returns (sys: System)
    requires env.Valid() && env.mode == Redis && !Uniform(callers) && Uploadable(env)
    ensures ReachableFrom(env, callers, sys) && !CompletedAgree(sys.state)
  {
    var a, b :| a in callers && b in callers && a.workspaceId == b.workspaceId && a.workspaceName != b.workspaceName;
    var filename, data :| CanUpload(env, filename, data);
    sys := StaleNames(env, a, b, filename, data);
    StaleCallers(callers, a, b, filename, data);
    OneDisagrees(sys.state, DocKey(a.workspaceId, DOC), 0);
  }

  lemma StaleCallers(callers: iset<Context>, a: Context, b: Context, filename: string, data: Bytes)
    requires a in callers && b in callers
    ensures StepsFrom(callers, StaleRun(a, b, filename, data))
  {
  }

  lemma OneDisagrees(s: State, k: DocKey, i: nat)
    requires k in s.records && s.records[k].status == Completed && PointId(k.documentId, i) in s.points
    requires s.points[PointId(k.documentId, i)].workspaceName != s.records[k].workspaceName
    ensures !CompletedAgree(s)
  {
  }

  lemma NamesAgree(env: Env, callers: iset<Context>, sys: System)
    requires env.Valid() && ReachableFrom(env, callers, sys)
    requires env.mode == InProcess || Uniform(callers) || !Uploadable(env)
    ensures CompletedAgree(sys.state)
  {
    var steps :| StepsFrom(callers, steps) && Execute(env, Empty, steps) == Some(sys);
    if env.mode == InProcess || Uniform(callers) {
      RunsKeepInv(env, Empty, steps);
      NamesFollowRecords(env, callers, sys);
      FollowingAgrees(env, sys);
    } else {
      NothingUploaded(env, steps);
    }
  }
}
