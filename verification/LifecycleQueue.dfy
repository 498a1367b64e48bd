/** Retries, the order of work, and the end of it. */
module LifecycleQueue {
  import opened Documents
  import opened Lifecycle
  import opened LifecycleRuns
  import opened LifecycleInvariant
  import opened LifecycleTheorems
  import opened Wrappers

  /** The first `n` of a series of worker steps without API calls in between, with their faults. */
  function Work(env: Env, s: State, faults: seq<Faults>, n: nat): State
    requires env.Valid() && n <= |faults|
    decreases n
  {
    if n == 0 then s else Work(env, ProcessNext(env, s, faults[0]).0, faults[1..], n - 1)
  }

  /** Attempts start at one and never pass the configured maximum. */
  predicate QueueOk(env: Env, queue: seq<Job>) {
    forall i :: 0 <= i < |queue| ==> 1 <= queue[i].attempt <= queue[i].maxAttempts == env.maxAttempts
  }

  /** How many runs of the pipeline the queued jobs can still cause. */
  function Budget(queue: seq<Job>): int
    decreases |queue|
  {
    if queue == [] then 0
    else Budget(queue[..|queue| - 1]) + (queue[|queue| - 1].maxAttempts - queue[|queue| - 1].attempt + 1)
  }

  lemma {:induction false} BudgetCoversJobs(env: Env, queue: seq<Job>)
    requires QueueOk(env, queue)
    ensures Budget(queue) >= |queue|
    decreases |queue|
  {
    if queue != [] {
      BudgetCoversJobs(env, queue[..|queue| - 1]);
    }
  }

  /** A worker step removes the top job, or replaces it by its next attempt. */
  lemma QueueStep(env: Env, s: State, faults: Faults)
    requires env.Valid() && s.queue != []
    ensures var rest := s.queue[..|s.queue| - 1]; var run := RunOf(env, s, faults);
      ProcessNext(env, s, faults).0.queue == if run.wrote == Queued then rest + [NextAttempt(env, Top(s))] else rest
  {
    ProcessNextShape(env, s, faults);
  }

  /** Each worker step on a non-empty queue uses up part of the budget. */
  lemma BudgetFalls(env: Env, s: State, faults: Faults)
    requires env.Valid() && s.queue != [] && QueueOk(env, s.queue)
    ensures var s' := ProcessNext(env, s, faults).0;
      QueueOk(env, s'.queue) && Budget(s'.queue) < Budget(s.queue)
  {
    QueueStep(env, s, faults);
    var rest := s.queue[..|s.queue| - 1];
    assert (rest + [NextAttempt(env, Top(s))])[..|rest|] == rest;
  }

  /** Draining terminates: with no new jobs, as many worker steps as the budget allows empty the queue. */
  lemma {:induction false} DrainEmptiesQueue(env: Env, s: State, faults: seq<Faults>)
    requires env.Valid() && QueueOk(env, s.queue) && |faults| >= Budget(s.queue)
    ensures Work(env, s, faults, |faults|).queue == []
    decreases |faults|
  {
    BudgetCoversJobs(env, s.queue);
    if faults != [] {
      if s.queue != [] {
        BudgetFalls(env, s, faults[0]);
      }
      DrainEmptiesQueue(env, ProcessNext(env, s, faults[0]).0, faults[1..]);
    }
  }

  lemma TopStep(env: Env, s: State, older: seq<Job>, job: Job, faults: Faults)
    requires env.Valid() && s.queue == older + [job] && QueueOk(env, s.queue)
    ensures Top(s) == job && 1 <= job.attempt <= job.maxAttempts == env.maxAttempts
    ensures RunOf(env, s, faults).wrote == Queued ==> job.attempt < env.maxAttempts
    ensures ProcessNext(env, s, faults).0.queue
      == if RunOf(env, s, faults).wrote == Queued then older + [NextAttempt(env, job)] else older
  {
    assert s.queue[|older|] == job && s.queue[..|older|] == older;
    QueueStep(env, s, faults);
  }

  /** The job stays on top of the older ones through `k` attempts, and the `k`-th step removes it. */
  ghost predicate ResolvedAfter(env: Env, s: State, older: seq<Job>, job: Job, faults: seq<Faults>, k: nat)
    requires env.Valid()
  {
    && 1 <= k <= |faults|
    && (forall i :: 0 <= i < k ==> Work(env, s, faults, i).queue == older + [job.(attempt := job.attempt + i)])
    && Work(env, s, faults, k).queue == older
  }

  lemma WorkLater(env: Env, s: State, faults: seq<Faults>, i: nat)
    requires env.Valid() && 0 < i <= |faults|
    ensures Work(env, s, faults, i) == Work(env, ProcessNext(env, s, faults[0]).0, faults[1..], i - 1)
  {
  }

  lemma OneMoreAttempt(env: Env, s: State, older: seq<Job>, job: Job, faults: seq<Faults>, k: nat)
    requires env.Valid() && s.queue == older + [job] && faults != []
    requires ResolvedAfter(env, ProcessNext(env, s, faults[0]).0, older, NextAttempt(env, job), faults[1..], k)
    requires job.maxAttempts == env.maxAttempts
    ensures ResolvedAfter(env, s, older, job, faults, k + 1)
  {
    var s', next := ProcessNext(env, s, faults[0]).0, NextAttempt(env, job);
    WorkLater(env, s, faults, k + 1);
    forall i | 0 <= i < k + 1
      ensures Work(env, s, faults, i).queue == older + [job.(attempt := job.attempt + i)]
    {
      if i > 0 {
        WorkLater(env, s, faults, i);
        assert Work(env, s', faults[1..], i - 1).queue == older + [next.(attempt := next.attempt + (i - 1))];
        LaterAttempt(env, job, i);
      } else {
        assert job.(attempt := job.attempt + 0) == job;
      }
    }
  }

  lemma LaterAttempt(env: Env, job: Job, i: nat)
    requires i > 0 && job.maxAttempts == env.maxAttempts
    ensures NextAttempt(env, job).(attempt := NextAttempt(env, job).attempt + (i - 1)) == job.(attempt := job.attempt + i)
  {
  }

  /**
   Last in, first resolved: the top job is worked on through all its attempts, with the older
   jobs below it untouched, and is gone after `k` steps, at most as many as it has attempts left.
   */
  lemma {:induction false} TopIsResolvedFirst(env: Env, s: State, older: seq<Job>, job: Job, faults: seq<Faults>) returns (k: nat)
    requires env.Valid() && s.queue == older + [job] && QueueOk(env, s.queue)
    requires |faults| >= env.maxAttempts - job.attempt + 1
    ensures k <= env.maxAttempts - job.attempt + 1 && ResolvedAfter(env, s, older, job, faults, k)
    decreases env.maxAttempts - job.attempt
  {
    TopStep(env, s, older, job, faults[0]);
    if RunOf(env, s, faults[0]).wrote != Queued {
      k := 1;
      assert job.(attempt := job.attempt + 0) == job;
    } else {
      BudgetFalls(env, s, faults[0]);
      k := TopIsResolvedFirst(env, ProcessNext(env, s, faults[0]).0, older, NextAttempt(env, job), faults[1..]);
      OneMoreAttempt(env, s, older, job, faults, k);
      k := k + 1;
    }
  }

  // ----- every job's runs -----

  /** The runs of one job, in order. */
  function RunsOf(log: seq<Run>, jobId: string): seq<Run>
    decreases |log|
  {
    if log == [] then []
    else
      var rest := RunsOf(log[..|log| - 1], jobId);
      if log[|log| - 1].jobId == jobId then rest + [log[|log| - 1]] else rest
  }

  /** What the status written after a run says about the run. */
  predicate WroteRightly(env: Env, run: Run) {
    && run.wrote != Processing
    && (run.wrote == Completed <==> run.succeeded)
    && (run.wrote == Failed <==> !run.succeeded && (run.attempt == env.maxAttempts || run.enqueueFailed))
  }

  /** Attempts 1, 2, ..., k with k at most the maximum; only the last run may settle the job. */
  predicate ProperRuns(env: Env, runs: seq<Run>) {
    && |runs| <= env.maxAttempts
    && (forall i :: 0 <= i < |runs| ==> runs[i].attempt == i + 1 && WroteRightly(env, runs[i]))
    && (forall i :: 0 <= i < |runs| - 1 ==> runs[i].wrote == Queued)
  }

  predicate Unsettled(runs: seq<Run>) {
    runs != [] ==> runs[|runs| - 1].wrote == Queued
  }

  ghost predicate InQueue(queue: seq<Job>, jobId: string) {
    exists i :: 0 <= i < |queue| && queue[i].jobId == jobId
  }

  ghost predicate DistinctJobs(queue: seq<Job>) {
    forall i, j :: 0 <= i < j < |queue| ==> queue[i].jobId != queue[j].jobId
  }

  /** Queued jobs are distinct and known, and each is due for the attempt after its last run. */
  ghost predicate QueueMatchesLog(env: Env, queue: seq<Job>, jobIds: set<string>, log: seq<Run>) {
    && QueueOk(env, queue) && DistinctJobs(queue)
    && (forall i :: 0 <= i < |queue| ==> queue[i].jobId in jobIds)
    && (forall i :: 0 <= i < |queue| ==>
         Unsettled(RunsOf(log, queue[i].jobId)) && queue[i].attempt == |RunsOf(log, queue[i].jobId)| + 1)
  }

  /** Every job's runs are proper, and a job that has run without being settled is still queued. */
  ghost predicate LogMatchesQueue(env: Env, queue: seq<Job>, jobIds: set<string>, log: seq<Run>) {
    && (forall id :: id !in jobIds ==> RunsOf(log, id) == [])
    && (forall id :: ProperRuns(env, RunsOf(log, id)))
    && (forall id :: RunsOf(log, id) != [] && Unsettled(RunsOf(log, id)) ==> InQueue(queue, id))
  }

  ghost predicate JobsOk(env: Env, queue: seq<Job>, jobIds: set<string>, log: seq<Run>) {
    QueueMatchesLog(env, queue, jobIds, log) && LogMatchesQueue(env, queue, jobIds, log)
  }

  lemma NewJobKeepsJobsOk(env: Env, queue: seq<Job>, jobIds: set<string>, log: seq<Run>, job: Job)
    requires env.Valid() && JobsOk(env, queue, jobIds, log)
    requires job.jobId !in jobIds && job.attempt == 1 && job.maxAttempts == env.maxAttempts
    ensures JobsOk(env, queue + [job], jobIds + {job.jobId}, log)
  {
    forall id | InQueue(queue, id)
      ensures InQueue(queue + [job], id)
    {
      var i :| 0 <= i < |queue| && queue[i].jobId == id;
      assert (queue + [job])[i] == queue[i];
    }
  }

  /** The run of the top job continues its own runs and no others. */
  lemma LogStep(log: seq<Run>, run: Run)
    ensures forall id :: RunsOf(log + [run], id) == RunsOf(log, id) + if run.jobId == id then [run] else []
  {
    assert (log + [run])[..|log|] == log;
  }

  lemma RunOfFacts(env: Env, s: State, faults: Faults)
    requires env.Valid() && s.queue != [] && QueueOk(env, s.queue)
    ensures var run := RunOf(env, s, faults);
      && run.jobId == Top(s).jobId && run.attempt == Top(s).attempt && WroteRightly(env, run)
      && (run.wrote == Queued ==> run.attempt < env.maxAttempts)
  {
  }

  lemma WorkKeepsJobsOk(env: Env, s: State, jobIds: set<string>, log: seq<Run>, faults: Faults)
    requires env.Valid() && s.queue != [] && JobsOk(env, s.queue, jobIds, log)
    ensures JobsOk(env, ProcessNext(env, s, faults).0.queue, jobIds, log + [RunOf(env, s, faults)])
  {
    RunOfFacts(env, s, faults);
    QueueStep(env, s, faults);
    RunKeepsQueue(env, s.queue, ProcessNext(env, s, faults).0.queue, jobIds, log, RunOf(env, s, faults));
    RunKeepsLog(env, s.queue, ProcessNext(env, s, faults).0.queue, jobIds, log, RunOf(env, s, faults));
  }

  lemma NextRunIsProper(env: Env, runs: seq<Run>, run: Run)
    requires ProperRuns(env, runs) && Unsettled(runs)
    requires run.attempt == |runs| + 1 <= env.maxAttempts && WroteRightly(env, run)
    ensures ProperRuns(env, runs + [run])
  {
  }

  /** The queue after a run: without the job, or with its next attempt. */
  ghost predicate Advanced(env: Env, queue: seq<Job>, queue': seq<Job>, run: Run)
    requires queue != []
  {
    var job := queue[|queue| - 1];
    && run.jobId == job.jobId && run.attempt == job.attempt && WroteRightly(env, run)
    && (run.wrote == Queued ==> run.attempt < env.maxAttempts)
    && |queue'| == (if run.wrote == Queued then |queue| else |queue| - 1)
    && (forall i :: 0 <= i < |queue| - 1 ==> queue'[i] == queue[i])
    && (run.wrote == Queued ==> queue'[|queue| - 1] == NextAttempt(env, job))
  }

  lemma AdvancedQueueOk(env: Env, queue: seq<Job>, queue': seq<Job>, jobIds: set<string>, run: Run)
    requires queue != [] && Advanced(env, queue, queue', run) && QueueOk(env, queue) && DistinctJobs(queue)
    requires forall i :: 0 <= i < |queue| ==> queue[i].jobId in jobIds
    ensures QueueOk(env, queue') && DistinctJobs(queue')
    ensures forall i :: 0 <= i < |queue'| ==> queue'[i].jobId == queue[i].jobId && queue'[i].jobId in jobIds
    ensures forall i :: 0 <= i < |queue| - 1 ==> queue[i].jobId != run.jobId
    ensures forall id :: InQueue(queue, id) && id != run.jobId ==> InQueue(queue', id)
  {
    forall id | InQueue(queue, id) && id != run.jobId
      ensures InQueue(queue', id)
    {
      var i :| 0 <= i < |queue| && queue[i].jobId == id;
      assert queue'[i].jobId == id;
    }
  }

  lemma RunKeepsQueue(env: Env, queue: seq<Job>, queue': seq<Job>, jobIds: set<string>, log: seq<Run>, run: Run)
    requires queue != [] && QueueMatchesLog(env, queue, jobIds, log) && Advanced(env, queue, queue', run)
    ensures QueueMatchesLog(env, queue', jobIds, log + [run])
  {
    LogStep(log, run);
    AdvancedQueueOk(env, queue, queue', jobIds, run);
  }

  lemma RunKeepsLog(env: Env, queue: seq<Job>, queue': seq<Job>, jobIds: set<string>, log: seq<Run>, run: Run)
    requires queue != [] && JobsOk(env, queue, jobIds, log) && Advanced(env, queue, queue', run)
    ensures LogMatchesQueue(env, queue', jobIds, log + [run])
  {
    LogStep(log, run);
    AdvancedQueueOk(env, queue, queue', jobIds, run);
    assert queue[|queue| - 1].jobId == run.jobId;
    forall id
      ensures ProperRuns(env, RunsOf(log + [run], id))
      ensures RunsOf(log + [run], id) != [] && Unsettled(RunsOf(log + [run], id)) ==> InQueue(queue', id)
    {
      RunKeepsLogFor(env, queue, queue', jobIds, log, run, id);
    }
  }

  lemma RunKeepsLogFor(env: Env, queue: seq<Job>, queue': seq<Job>, jobIds: set<string>, log: seq<Run>, run: Run, id: string)
    requires queue != [] && JobsOk(env, queue, jobIds, log) && Advanced(env, queue, queue', run)
    requires id != run.jobId && InQueue(queue, id) ==> InQueue(queue', id)
    ensures ProperRuns(env, RunsOf(log + [run], id))
    ensures RunsOf(log + [run], id) != [] && Unsettled(RunsOf(log + [run], id)) ==> InQueue(queue', id)
  {
    LogStep(log, run);
    if id == run.jobId {
      assert queue[|queue| - 1].attempt == |RunsOf(log, id)| + 1;
      NextRunIsProper(env, RunsOf(log, id), run);
      assert run.wrote == Queued ==> queue'[|queue| - 1].jobId == id;
    }
  }

  // ----- whole runs -----

  /** An upload or a reindex adds at most the job it dispatches, at its first attempt. */
  predicate AddsAtMost(env: Env, queue: seq<Job>, queue': seq<Job>, jobId: string) {
    || queue' == queue
    || (|queue'| == |queue| + 1 && queue'[..|queue|] == queue
        && queue'[|queue|].jobId == jobId && queue'[|queue|].attempt == 1 && queue'[|queue|].maxAttempts == env.maxAttempts)
  }

  lemma EnqueueAdds(env: Env, s: State, job: Job, faults: Faults)
    requires env.Valid() && job.attempt == 1
    ensures AddsAtMost(env, s.queue, Enqueue(env, s, job, faults).0.queue, job.jobId)
  {
  }

  lemma UploadQueue(env: Env, s: State, ctx: Context, filename: string, data: Bytes, level: string,
                    documentId: string, jobId: string, faults: Faults)
    requires env.Valid()
    ensures AddsAtMost(env, s.queue, Upload(env, s, ctx, filename, data, level, documentId, jobId, faults).0.queue, jobId)
  {
    var name := NormalizeFilename(filename);
    var key := StorageKey(ctx.workspaceId, documentId, name);
    EnqueueAdds(env, s.(objects := s.objects[key := data]),
                Job(jobId, ctx.workspaceId, ctx.workspaceName, documentId, name, key, ctx.employeeId, level, 1, 3), faults);
  }

  lemma ReindexQueue(env: Env, s: State, ctx: Context, documentId: string, jobId: string, faults: Faults)
    requires env.Valid()
    ensures AddsAtMost(env, s.queue, Reindex(env, s, ctx, documentId, jobId, faults).0.queue, jobId)
  {
    if Reindex(env, s, ctx, documentId, jobId, faults).1.Ok? {
      var record := Authorize(s, ctx, documentId).value;
      EnqueueAdds(env, s.(points := WithoutDocument(s.points, ctx.workspaceId, documentId)),
                  Job(jobId, ctx.workspaceId, ctx.workspaceName, documentId, record.filename, record.storageKey,
                      record.uploadedBy, record.securityLevel, 1, 3), faults);
    }
  }

  lemma DispatchKeepsJobsOk(env: Env, queue: seq<Job>, queue': seq<Job>, jobIds: set<string>, log: seq<Run>, jobId: string)
    requires env.Valid() && JobsOk(env, queue, jobIds, log) && jobId !in jobIds
    requires AddsAtMost(env, queue, queue', jobId)
    ensures JobsOk(env, queue', jobIds + {jobId}, log)
  {
    if queue' != queue {
      NewJobKeepsJobsOk(env, queue, jobIds, log, queue'[|queue|]);
      assert queue' == queue + [queue'[|queue|]];
    }
  }

  lemma TakeKeepsJobsOk(env: Env, sys: System, step: Step)
    requires env.Valid() && Enabled(sys, step) && JobsOk(env, sys.state.queue, sys.jobIds, sys.log)
    ensures var sys' := Take(env, sys, step); JobsOk(env, sys'.state.queue, sys'.jobIds, sys'.log)
  {
    var sys' := Take(env, sys, step);
    match step
    case DoUpload(ctx, filename, data, level, documentId, jobId, faults) =>
      UploadQueue(env, sys.state, ctx, filename, data, level, documentId, jobId, faults);
      DispatchKeepsJobsOk(env, sys.state.queue, sys'.state.queue, sys.jobIds, sys.log, jobId);
    case DoReindex(ctx, documentId, jobId, faults) =>
      ReindexQueue(env, sys.state, ctx, documentId, jobId, faults);
      DispatchKeepsJobsOk(env, sys.state.queue, sys'.state.queue, sys.jobIds, sys.log, jobId);
    case DoDelete(ctx, documentId) =>
    case DoWork(faults) =>
      if sys.state.queue != [] {
        WorkKeepsJobsOk(env, sys.state, sys.jobIds, sys.log, faults);
      }
  }

  lemma {:induction false} RunsKeepJobsOk(env: Env, steps: seq<Step>)
    requires env.Valid()
    ensures var r := Execute(env, Empty, steps);
      r.Some? ==> JobsOk(env, r.value.state.queue, r.value.jobIds, r.value.log)
    decreases |steps|
  {
    if steps != [] {
      var before := steps[..|steps| - 1];
      RunsKeepJobsOk(env, before);
      var r := Execute(env, Empty, before);
      if r.Some? && Enabled(r.value, steps[|steps| - 1]) {
        TakeKeepsJobsOk(env, r.value, steps[|steps| - 1]);
      }
    }
  }

  /**
   Bounded retries: in every reachable state, each job has run at attempts 1, 2, ..., k with k at
   most the maximum; a run wrote `completed` exactly when it succeeded, and `failed` exactly when
   it failed at the last attempt or its next attempt could not be enqueued; and a job that is no
   longer queued either never ran or was settled by its last run.
   */
  lemma RetriesAreBounded(env: Env, sys: System, jobId: string)
    requires env.Valid() && Reachable(env, sys)
    ensures ProperRuns(env, RunsOf(sys.log, jobId))
    ensures !InQueue(sys.state.queue, jobId) ==>
      var runs := RunsOf(sys.log, jobId);
      runs == [] || runs[|runs| - 1].wrote == Completed || runs[|runs| - 1].wrote == Failed
    ensures QueueOk(env, sys.state.queue) && DistinctJobs(sys.state.queue)
  {
    var steps :| Execute(env, Empty, steps) == Some(sys);
    RunsKeepJobsOk(env, steps);
    JobsOkBounds(env, sys.state.queue, sys.jobIds, sys.log, jobId);
  }

  lemma JobsOkBounds(env: Env, queue: seq<Job>, jobIds: set<string>, log: seq<Run>, jobId: string)
    requires JobsOk(env, queue, jobIds, log)
    ensures ProperRuns(env, RunsOf(log, jobId))
    ensures !InQueue(queue, jobId) ==>
      var runs := RunsOf(log, jobId);
      runs == [] || runs[|runs| - 1].wrote == Completed || runs[|runs| - 1].wrote == Failed
    ensures QueueOk(env, queue) && DistinctJobs(queue)
  {
    var runs := RunsOf(log, jobId);
    if runs != [] {
      assert WroteRightly(env, runs[|runs| - 1]);
    }
  }

  /** The status that a run wrote is the one its document is left with, if the document is still there. */
  lemma WorkerWritesWhatItLogs(env: Env, sys: System, faults: Faults)
    requires env.Valid() && Reachable(env, sys) && sys.state.queue != []
    ensures var job := Top(sys.state); var k := DocKey(job.workspaceId, job.documentId);
      var after := Take(env, sys, DoWork(faults)); var run := RunOf(env, sys.state, faults);
      after.log == sys.log + [run] && WritesFor(sys.state, after.state, k, run)
  {
    ReachableInv(env, sys);
    WorkWrites(env, sys.state, sys.origins, faults);
    TakeOfWork(env, sys, faults);
  }

  lemma TakeOfWork(env: Env, sys: System, faults: Faults)
    requires env.Valid() && sys.state.queue != []
    ensures var after := Take(env, sys, DoWork(faults));
      after.state == ProcessNext(env, sys.state, faults).0 && after.log == sys.log + [RunOf(env, sys.state, faults)]
  {
  }

  /** What a run leaves of the record and the points of its job's document. */
  ghost predicate WritesFor(s: State, s': State, k: DocKey, run: Run) {
    && (k in s.records <==> k in s'.records)
    && (k in s'.records ==> s'.records[k].status == run.wrote)
    && (k !in s.records ==> !run.succeeded && s'.points == s.points)
  }

  lemma WorkWrites(env: Env, s: State, origins: map<string, Origin>, faults: Faults)
    requires env.Valid() && Inv(env, s, origins) && s.queue != []
    ensures WritesFor(s, ProcessNext(env, s, faults).0, DocKey(Top(s).workspaceId, Top(s).documentId), RunOf(env, s, faults))
  {
    TopIsKnown(env, s, origins);
    WorkShape(env, s, origins, faults);
    WorkedWrites(env, s, ProcessNext(env, s, faults).0, origins[Top(s).documentId], RunOf(env, s, faults));
  }

  lemma WorkedWrites(env: Env, s: State, s': State, o: Origin, run: Run)
    requires env.Valid() && s.queue != [] && Worked(env, s, s', o, run) && Top(s).workspaceId == o.workspaceId
    ensures WritesFor(s, s', DocKey(Top(s).workspaceId, Top(s).documentId), run)
  {
  }

  // ----- draining without faults -----

  const NO_FAULTS := Faults(None, None)

  /** Without faults a run on a live document succeeds. */
  lemma CleanRunSucceeds(env: Env, s: State, origins: map<string, Origin>)
    requires env.Valid() && Inv(env, s, origins) && s.queue != []
    ensures Top(s).documentId in origins
    ensures Live(s, Top(s).documentId, origins[Top(s).documentId]) ==> RunOf(env, s, NO_FAULTS).wrote == Completed
  {
    TopIsKnown(env, s, origins);
    var o := origins[Top(s).documentId];
    if Live(s, Top(s).documentId, o) {
      CleanRunOnLive(env, s, o);
    }
  }

  lemma CleanRunOnLive(env: Env, s: State, o: Origin)
    requires env.Valid() && s.queue != [] && JobFits(env, Top(s), map[Top(s).documentId := o])
    requires o.storageKey in s.objects && s.objects[o.storageKey] == o.data && Parse(env, o.filename, o.data).Ok?
    ensures RunOf(env, s, NO_FAULTS).wrote == Completed
  {
    PipelineOnLive(env, s, Top(s), o, None);
  }

  lemma CleanRecords(env: Env, s: State, s': State, o: Origin, run: Run, k: DocKey)
    requires env.Valid() && s.queue != [] && Worked(env, s, s', o, run)
    requires Live(s, Top(s).documentId, o) ==> run.wrote == Completed
    requires k in s.records && s.records[k].status != Failed
    ensures k in s'.records && s'.records[k].status != Failed
  {
  }

  lemma CleanStep(env: Env, s: State, origins: map<string, Origin>, k: DocKey)
    requires env.Valid() && Inv(env, s, origins) && k in s.records && s.records[k].status != Failed
    ensures var s' := ProcessNext(env, s, NO_FAULTS).0;
      Inv(env, s', origins) && k in s'.records && s'.records[k].status != Failed
  {
    WorkKeepsInv(env, s, origins, NO_FAULTS);
    if s.queue != [] {
      CleanRunSucceeds(env, s, origins);
      WorkShape(env, s, origins, NO_FAULTS);
      CleanRecords(env, s, ProcessNext(env, s, NO_FAULTS).0, origins[Top(s).documentId], RunOf(env, s, NO_FAULTS), k);
    }
  }

  predicate NoneFails(faults: seq<Faults>) {
    forall i :: 0 <= i < |faults| ==> faults[i] == NO_FAULTS
  }

  lemma WorkThrough(env: Env, s: State, faults: seq<Faults>)
    requires env.Valid() && faults != []
    ensures Work(env, s, faults, |faults|) == Work(env, ProcessNext(env, s, faults[0]).0, faults[1..], |faults[1..]|)
  {
  }

  lemma NoneFailsLater(faults: seq<Faults>)
    requires NoneFails(faults) && faults != []
    ensures faults[0] == NO_FAULTS && NoneFails(faults[1..])
  {
  }

  lemma {:induction false} CleanDrain(env: Env, s: State, origins: map<string, Origin>, k: DocKey, faults: seq<Faults>)
    requires env.Valid() && Inv(env, s, origins) && k in s.records && s.records[k].status != Failed && NoneFails(faults)
    ensures var s' := Work(env, s, faults, |faults|);
      Inv(env, s', origins) && k in s'.records && s'.records[k].status != Failed
    decreases |faults|
  {
    if faults != [] {
      NoneFailsLater(faults);
      WorkThrough(env, s, faults);
      CleanStep(env, s, origins, k);
      CleanDrain(env, ProcessNext(env, s, NO_FAULTS).0, origins, k, faults[1..]);
    }
  }

  /**
   Once services stop failing, draining the queue completes every document that had not been
   given up before, and leaves each of them indexed exactly.
   */
  lemma CleanDrainCompletes(env: Env, sys: System, k: DocKey, faults: seq<Faults>)
    requires env.Valid() && Reachable(env, sys) && k in sys.state.records && sys.state.records[k].status != Failed
    requires |faults| >= Budget(sys.state.queue)
    requires NoneFails(faults)
    ensures var s' := Work(env, sys.state, faults, |faults|);
      && s'.queue == []
      && k in s'.records && s'.records[k].status == Completed
      && k.documentId in sys.origins
      && ExactPoints(env, s'.points, k.documentId, sys.origins[k.documentId])
  {
    ReachableInv(env, sys);
    RetriesAreBounded(env, sys, "");
    DrainEmptiesQueue(env, sys.state, faults);
    CleanDrain(env, sys.state, sys.origins, k, faults);
    var s', o := Work(env, sys.state, faults, |faults|), sys.origins[k.documentId];
    assert k == DocKey(o.workspaceId, k.documentId);
    assert DocumentOk(env, s', k.documentId, o);
    assert !Pending(s'.queue, k.documentId);
  }
}
