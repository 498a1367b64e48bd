/** What the chunk index holds once documents are completed. */
module LifecycleIndex {
  import opened Documents
  import opened Lifecycle
  import opened LifecycleRuns
  import opened LifecycleInvariant
  import opened LifecycleTheorems
  import opened LifecycleNames
  import opened Wrappers
  import Chunker

  // ----- index agreement -----

  /**
   The document's points are exactly the chunks of its stored bytes, under the record's workspace,
   owner, level and filename, and under the given display name of the workspace.
   */
  ghost predicate IndexAgrees(env: Env, s: State, r: Record, name: string)
    requires env.Valid()
  {
    && r.storageKey in s.objects
    && var parsed := Parse(env, r.filename, s.objects[r.storageKey]);
    && parsed.Ok?
    && var chunks := Chunker.Chunks(env.chunker, parsed.value.text);
    && r.chunkCount == |chunks|
    && (forall i: nat :: PointId(r.documentId, i) in s.points <==> i < |chunks|)
    && (forall i: nat :: i < |chunks| ==>
         s.points[PointId(r.documentId, i)] ==
           Point(r.workspaceId, name, r.documentId, r.uploadedBy, r.securityLevel, r.filename,
                 parsed.value.parserName, i, chunks[i]))
  }

  /** A completed record, seen through the invariant. */
  ghost predicate IndexedFrom(env: Env, sys: System, k: DocKey, o: Origin)
    requires env.Valid()
  {
    && k in sys.state.records && k.documentId in sys.origins && sys.origins[k.documentId] == o
    && k == DocKey(o.workspaceId, k.documentId)
    && Parse(env, o.filename, o.data).Ok? && |ChunksOf(env, o)| >= 1
    && o.storageKey in sys.state.objects && sys.state.objects[o.storageKey] == o.data
    && RecordFits(env, sys.state.records[k], k.documentId, o)
    && ExactPoints(env, sys.state.points, k.documentId, o)
    && sys.state.records[k].chunkCount == |ChunksOf(env, o)|
  }

  lemma CompletedOrigin(env: Env, sys: System, k: DocKey) returns (o: Origin)
    requires env.Valid() && Inv(env, sys.state, sys.origins)
    requires k in sys.state.records && sys.state.records[k].status == Completed
    ensures IndexedFrom(env, sys, k, o)
  {
    o := sys.origins[k.documentId];
    assert k == DocKey(o.workspaceId, k.documentId);
    assert OriginOk(env, k.documentId, o) && DocumentOk(env, sys.state, k.documentId, o);
    OriginsHaveChunks(env, o);
  }

  lemma NamedPoints(env: Env, sys: System, k: DocKey, o: Origin)
    requires env.Valid() && IndexedFrom(env, sys, k, o) && CarryLastName(sys)
    ensures k.documentId in sys.indexedAs
    ensures IndexAgrees(env, sys.state, sys.state.records[k], sys.indexedAs[k.documentId])
  {
    assert PointId(k.documentId, 0) in sys.state.points;
    forall i: nat | i < |ChunksOf(env, o)|
      ensures PointFits(env, sys.state.points[PointId(k.documentId, i)], k.documentId, o, i)
      ensures sys.state.points[PointId(k.documentId, i)].workspaceName == sys.indexedAs[k.documentId]
    {
      assert PointId(k.documentId, i) in sys.state.points;
    }
  }

  /**
   Index agreement: in every reachable state, a document whose record says `completed` has at
   least one chunk, as many as the record says, and its points are exactly its chunks, with the
   record's fields and with the display name that the document's last successful run brought.
   */
  lemma CompletedMeansIndexed(env: Env, sys: System, k: DocKey)
    requires env.Valid() && Reachable(env, sys)
    requires k in sys.state.records && sys.state.records[k].status == Completed
    ensures var r := sys.state.records[k];
      r.Key() == k && r.chunkCount >= 1 && k.documentId in sys.indexedAs
      && IndexAgrees(env, sys.state, r, sys.indexedAs[k.documentId])
  {
    ReachableInv(env, sys);
    PointsCarryLastName(env, sys);
    var o := CompletedOrigin(env, sys, k);
    NamedPoints(env, sys, k, o);
  }

  lemma FromIsReachable(env: Env, callers: iset<Context>, sys: System)
    requires env.Valid() && ReachableFrom(env, callers, sys)
    ensures Reachable(env, sys)
  {
  }

  /** Under the condition for names to agree, the points of a completed document carry all of its record's fields. */
  lemma CompletedMatchesRecord(env: Env, callers: iset<Context>, sys: System, k: DocKey)
    requires env.Valid() && ReachableFrom(env, callers, sys) && (env.mode == InProcess || Uniform(callers))
    requires k in sys.state.records && sys.state.records[k].status == Completed
    ensures k.documentId in sys.indexedAs && sys.indexedAs[k.documentId] == sys.state.records[k].workspaceName
    ensures IndexAgrees(env, sys.state, sys.state.records[k], sys.state.records[k].workspaceName)
  {
    FromIsReachable(env, callers, sys);
    NamesAgree(env, callers, sys);
    CompletedMeansIndexed(env, sys, k);
    assert PointId(k.documentId, 0) in sys.state.points;
  }

  // ----- the index does not depend on the order of work -----

  ghost predicate AllCompleted(s: State) {
    forall k :: k in s.records ==> s.records[k].status == Completed
  }

  /** The same documents are live in both systems, and they were uploaded alike. */
  ghost predicate SameDocuments(sys: System, sys': System) {
    && sys.state.records.Keys == sys'.state.records.Keys
    && forall k :: k in sys.state.records ==>
         && k.documentId in sys.origins && k.documentId in sys'.origins
         && sys.origins[k.documentId] == sys'.origins[k.documentId]
  }

  /** The live documents were last indexed under the same display names. */
  ghost predicate SameNames(sys: System, sys': System) {
    forall k :: k in sys.state.records ==>
      && k.documentId in sys.indexedAs && k.documentId in sys'.indexedAs
      && sys.indexedAs[k.documentId] == sys'.indexedAs[k.documentId]
  }

  /** The index without the workspaces' display names. */
  ghost function Core(points: map<PointId, Point>): map<PointId, Point> {
    map id | id in points :: points[id].(workspaceName := "")
  }

  /** A point of the one index, seen in both. */
  lemma SamePoint(env: Env, sys: System, sys': System, id: PointId)
    requires env.Valid() && Inv(env, sys.state, sys.origins) && Inv(env, sys'.state, sys'.origins)
    requires SameDocuments(sys, sys') && AllCompleted(sys'.state) && id in sys.state.points
    requires CarryLastName(sys) && CarryLastName(sys')
    ensures id in sys'.state.points && id.documentId in sys.indexedAs && id.documentId in sys'.indexedAs
    ensures sys.state.points[id] == sys'.state.points[id].(workspaceName := sys.indexedAs[id.documentId])
    ensures sys'.state.points[id].workspaceName == sys'.indexedAs[id.documentId]
    ensures DocKey(sys.state.points[id].workspaceId, id.documentId) in sys.state.records
  {
    PointOwner(env, sys.state, sys.origins, id);
    var o := sys.origins[id.documentId];
    var k := DocKey(o.workspaceId, id.documentId);
    assert k in sys.state.records && k in sys'.state.records.Keys;
    assert DocumentOk(env, sys.state, id.documentId, o);
    var o' := CompletedOrigin(env, sys', k);
    ExactFits(env, sys.state.points, id, o);
    ExactFits(env, sys'.state.points, id, o);
  }

  lemma ExactFits(env: Env, points: map<PointId, Point>, id: PointId, o: Origin)
    requires env.Valid() && ExactPoints(env, points, id.documentId, o)
    ensures id in points <==> id.index < |ChunksOf(env, o)|
    ensures id in points ==> PointFits(env, points[id], id.documentId, o, id.index)
  {
    assert id == PointId(id.documentId, id.index);
  }

  /** Every point of the one index is in the other one too, up to its display name or, if the names are the same, as it is. */
  ghost predicate Covered(points: map<PointId, Point>, points': map<PointId, Point>, sameNames: bool) {
    forall id :: id in points ==>
      && id in points'
      && points[id].(workspaceName := "") == points'[id].(workspaceName := "")
      && (sameNames ==> points[id] == points'[id])
  }

  lemma IndexIsCovered(env: Env, sys: System, sys': System, sameNames: bool)
    requires env.Valid() && Inv(env, sys.state, sys.origins) && Inv(env, sys'.state, sys'.origins)
    requires SameDocuments(sys, sys') && AllCompleted(sys'.state) && CarryLastName(sys) && CarryLastName(sys')
    requires sameNames ==> SameNames(sys, sys')
    ensures Covered(sys.state.points, sys'.state.points, sameNames)
  {
    forall id | id in sys.state.points
      ensures id in sys'.state.points
        && sys.state.points[id].(workspaceName := "") == sys'.state.points[id].(workspaceName := "")
        && (sameNames ==> sys.state.points[id] == sys'.state.points[id])
    {
      SamePoint(env, sys, sys', id);
    }
  }

  lemma BothCovered(points: map<PointId, Point>, points': map<PointId, Point>, sameNames: bool)
    requires Covered(points, points', sameNames) && Covered(points', points, sameNames)
    ensures Core(points) == Core(points')
    ensures sameNames ==> points == points'
  {
  }

  lemma SameCore(env: Env, sys: System, sys': System)
    requires env.Valid() && Inv(env, sys.state, sys.origins) && Inv(env, sys'.state, sys'.origins)
    requires SameDocuments(sys, sys') && AllCompleted(sys.state) && AllCompleted(sys'.state)
    requires CarryLastName(sys) && CarryLastName(sys')
    ensures Core(sys.state.points) == Core(sys'.state.points)
    ensures SameNames(sys, sys') ==> sys.state.points == sys'.state.points
  {
    var sameNames := SameNames(sys, sys');
    assert SameDocuments(sys', sys) && (sameNames ==> SameNames(sys', sys));
    IndexIsCovered(env, sys, sys', sameNames);
    IndexIsCovered(env, sys', sys, sameNames);
    BothCovered(sys.state.points, sys'.state.points, sameNames);
  }

  /**
   Indexing is idempotent and order-free: two runs that have the same live documents, uploaded
   alike and all completed, have the same index up to display names, however their steps were
   interleaved and however often documents were indexed again.  The payloads are equal throughout
   if and only if the documents were last indexed under the same names.
   */
  lemma CompletedIndexIsCanonical(env: Env, sys: System, sys': System)
    requires env.Valid() && Reachable(env, sys) && Reachable(env, sys')
    requires SameDocuments(sys, sys') && AllCompleted(sys.state) && AllCompleted(sys'.state)
    ensures Core(sys.state.points) == Core(sys'.state.points)
    ensures sys.state.points == sys'.state.points <==> SameNames(sys, sys')
  {
    ReachableInv(env, sys);
    ReachableInv(env, sys');
    PointsCarryLastName(env, sys);
    PointsCarryLastName(env, sys');
    SameCore(env, sys, sys');
    if sys.state.points == sys'.state.points {
      forall k | k in sys.state.records
        ensures k.documentId in sys.indexedAs && k.documentId in sys'.indexedAs
        ensures sys.indexedAs[k.documentId] == sys'.indexedAs[k.documentId]
      {
        FirstPointTells(env, sys, sys', k);
      }
    }
  }

  lemma FirstPointTells(env: Env, sys: System, sys': System, k: DocKey)
    requires env.Valid() && Inv(env, sys.state, sys.origins) && k in sys.state.records && AllCompleted(sys.state)
    requires CarryLastName(sys) && CarryLastName(sys') && sys.state.points == sys'.state.points
    ensures k.documentId in sys.indexedAs && k.documentId in sys'.indexedAs
    ensures sys.indexedAs[k.documentId] == sys'.indexedAs[k.documentId]
  {
    var o := CompletedOrigin(env, sys, k);
    assert PointId(k.documentId, 0) in sys.state.points;
  }

  /**
   When the callers of each workspace bring one name, the payloads are equal throughout; and when
   documents are indexed on the spot, if and only if the records of the live documents carry the
   same names.
   */
  lemma IndexIsCanonicalByRecords(env: Env, callers: iset<Context>, sys: System, sys': System)
    requires env.Valid() && ReachableFrom(env, callers, sys) && ReachableFrom(env, callers, sys')
    requires SameDocuments(sys, sys') && AllCompleted(sys.state) && AllCompleted(sys'.state)
    ensures Uniform(callers) ==> sys.state.points == sys'.state.points
    ensures env.mode == InProcess ==>
      (sys.state.points == sys'.state.points
       <==> forall k :: k in sys.state.records ==> sys.state.records[k].workspaceName == sys'.state.records[k].workspaceName)
  {
    FromIsReachable(env, callers, sys);
    FromIsReachable(env, callers, sys');
    CompletedIndexIsCanonical(env, sys, sys');
    if env.mode == InProcess || Uniform(callers) {
      forall k | k in sys.state.records
        ensures k.documentId in sys.indexedAs && k.documentId in sys'.indexedAs && k in sys'.state.records
        ensures sys.indexedAs[k.documentId] == sys.state.records[k].workspaceName
        ensures sys'.indexedAs[k.documentId] == sys'.state.records[k].workspaceName
      {
        assert k in sys'.state.records.Keys;
        CompletedMatchesRecord(env, callers, sys, k);
        CompletedMatchesRecord(env, callers, sys', k);
      }
    }
    if Uniform(callers) {
      forall k | k in sys.state.records
        ensures sys.state.records[k].workspaceName == sys'.state.records[k].workspaceName
      {
        OneNameInRecords(env, callers, sys, sys', k);
      }
    }
  }

  lemma OneNameInRecords(env: Env, callers: iset<Context>, sys: System, sys': System, k: DocKey)
    requires env.Valid() && ReachableFrom(env, callers, sys) && ReachableFrom(env, callers, sys') && Uniform(callers)
    requires k in sys.state.records && k in sys'.state.records
    ensures sys.state.records[k].workspaceName == sys'.state.records[k].workspaceName
  {
    var steps :| StepsFrom(callers, steps) && Execute(env, Empty, steps) == Some(sys);
    var steps' :| StepsFrom(callers, steps') && Execute(env, Empty, steps') == Some(sys');
    RunsKeepNames(env, callers, steps);
    RunsKeepNames(env, callers, steps');
    assert Brought(callers, k.workspaceId, sys.state.records[k].workspaceName);
    assert Brought(callers, k.workspaceId, sys'.state.records[k].workspaceName);
  }
}
