/** Over whole runs: callers who are no administrators never touch confidential and restricted documents. */
module LifecyclePermissions {
  import opened Documents
  import opened Lifecycle
  import opened LifecycleRuns
  import opened LifecycleContracts
  import opened LifecycleTheorems
  import opened Wrappers

  /** Whoever deletes or reindexes in this step is no administrator. */
  predicate NoAdmin(step: Step) {
    match step
    case DoUpload(_, _, _, _, _, _, _) => true
    case DoReindex(ctx, _, _, _) => ctx.role != "admin"
    case DoDelete(ctx, _) => ctx.role != "admin"
    case DoWork(_) => true
  }

  predicate IsProtected(r: Record) {
    r.securityLevel == "confidential" || r.securityLevel == "restricted"
  }

  /** The record is still there, with nothing changed but what a worker writes. */
  ghost predicate Kept(s: State, s': State, k: DocKey) {
    && k in s.records && k in s'.records
    && s'.records[k] == s.records[k].(status := s'.records[k].status, error := s'.records[k].error, chunkCount := s'.records[k].chunkCount)
  }

  lemma DeleteLeavesOthers(s: State, ctx: Context, documentId: string, k: DocKey)
    requires k in s.records && (k != DocKey(ctx.workspaceId, documentId) || Delete(s, ctx, documentId).1.Err?)
    ensures var s' := Delete(s, ctx, documentId).0; k in s'.records && s'.records[k] == s.records[k]
  {
  }

  lemma ReindexLeavesOthers(env: Env, s: State, ctx: Context, documentId: string, jobId: string, faults: Faults, k: DocKey)
    requires env.Valid() && k in s.records
    requires DocKey(ctx.workspaceId, documentId) in s.records ==>
      s.records[DocKey(ctx.workspaceId, documentId)].Key() == DocKey(ctx.workspaceId, documentId)
    requires k != DocKey(ctx.workspaceId, documentId) || Reindex(env, s, ctx, documentId, jobId, faults).1.Err?
    ensures var s' := Reindex(env, s, ctx, documentId, jobId, faults).0; k in s'.records && s'.records[k] == s.records[k]
  {
    ReindexIsGuarded(env, s, ctx, documentId, jobId, faults);
    ReindexMeaning(env, s, ctx, documentId, jobId, faults);
  }

  /** A deletion or reindex by somebody who is no administrator leaves a protected record as it is. */
  lemma NoAdminLeavesProtected(env: Env, s: State, step: Step, k: DocKey)
    requires env.Valid() && NoAdmin(step) && k in s.records && IsProtected(s.records[k])
    requires forall other :: other in s.records ==> s.records[other].Key() == other
    ensures step.DoDelete? ==>
      var s' := Delete(s, step.ctx, step.documentId).0; k in s'.records && s'.records[k] == s.records[k]
    ensures step.DoReindex? ==>
      var s' := Reindex(env, s, step.ctx, step.documentId, step.jobId, step.faults).0; k in s'.records && s'.records[k] == s.records[k]
  {
    if step.DoDelete? {
      DeleteIsGuarded(s, step.ctx, step.documentId);
      DeleteLeavesOthers(s, step.ctx, step.documentId, k);
    } else if step.DoReindex? {
      ReindexIsGuarded(env, s, step.ctx, step.documentId, step.jobId, step.faults);
      ReindexLeavesOthers(env, s, step.ctx, step.documentId, step.jobId, step.faults, k);
    }
  }

  lemma UploadLeavesOthers(env: Env, s: State, step: Step, k: DocKey)
    requires env.Valid() && step.DoUpload? && k in s.records && k.documentId != step.documentId
    ensures var s' := Upload(env, s, step.ctx, step.filename, step.data, step.level, step.documentId, step.jobId, step.faults).0;
      k in s'.records && s'.records[k] == s.records[k]
  {
    UploadMeaning(env, s, step.ctx, step.filename, step.data, step.level, step.documentId, step.jobId, step.faults);
  }

  lemma WorkKeeps(env: Env, s: State, faults: Faults, k: DocKey)
    requires env.Valid() && k in s.records
    ensures Kept(s, ProcessNext(env, s, faults).0, k)
  {
    if s.queue != [] {
      WorkerMeaning(env, s, faults);
    }
  }

  /** What the invariant says about records. */
  lemma KnownRecords(env: Env, sys: System)
    requires env.Valid() && Inv(env, sys.state, sys.origins)
    ensures forall k :: k in sys.state.records ==> sys.state.records[k].Key() == k && k.documentId in sys.origins
  {
    forall k | k in sys.state.records
      ensures sys.state.records[k].Key() == k
    {
      assert k == DocKey(sys.origins[k.documentId].workspaceId, k.documentId);
      assert DocumentOk(env, sys.state, k.documentId, sys.origins[k.documentId]);
    }
  }

  lemma StepKeepsProtected(env: Env, sys: System, step: Step, k: DocKey)
    requires env.Valid() && Enabled(sys, step) && NoAdmin(step)
    requires k in sys.state.records && IsProtected(sys.state.records[k])
    requires forall other :: other in sys.state.records ==> sys.state.records[other].Key() == other && other.documentId in sys.origins
    ensures Kept(sys.state, Take(env, sys, step).state, k)
  {
    match step
    case DoUpload(_, _, _, _, _, _, _) => UploadLeavesOthers(env, sys.state, step, k);
    case DoReindex(_, _, _, _) => NoAdminLeavesProtected(env, sys.state, step, k);
    case DoDelete(_, _) => NoAdminLeavesProtected(env, sys.state, step, k);
    case DoWork(faults) => WorkKeeps(env, sys.state, faults, k);
  }

  /**
   In every run in which no administrator deletes or reindexes, from any state of the invariant, a
   confidential or restricted document keeps its record, and nothing but its status,
   error and chunk count changes.
   */
  lemma {:induction false} ProtectedStays(env: Env, from: System, steps: seq<Step>, k: DocKey)
    requires env.Valid() && Inv(env, from.state, from.origins)
    requires forall i :: 0 <= i < |steps| ==> NoAdmin(steps[i])
    requires k in from.state.records && IsProtected(from.state.records[k])
    ensures var r := Execute(env, from, steps); r.Some? ==> Kept(from.state, r.value.state, k)
    decreases |steps|
  {
    if steps != [] {
      var before, last := steps[..|steps| - 1], steps[|steps| - 1];
      ProtectedStays(env, from, before, k);
      RunsKeepInv(env, from, before);
      var r := Execute(env, from, before);
      if r.Some? && Enabled(r.value, last) {
        KnownRecords(env, r.value);
        StepKeepsProtected(env, r.value, last, k);
      }
    }
  }
}
