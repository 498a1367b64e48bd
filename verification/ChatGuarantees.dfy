/** What answers mean for the documents: nothing permitted is withheld, and nothing that is gone is cited. */
module ChatGuarantees {
  import opened Chat
  import opened Documents
  import opened Filters
  import opened Lifecycle
  import opened LifecycleRuns
  import opened LifecycleTheorems
  import opened Replies
  import opened Retrieval
  import opened Sequences
  import opened Wrappers
  import Chunker

  // ----- nothing permitted is withheld -----

  lemma {:induction false} KeysBound(chunks: seq<RetrievedChunk>, ids: set<PointId>)
    requires UniqueKeys(chunks) && forall i :: 0 <= i < |chunks| ==> chunks[i].Key() in ids
    ensures |chunks| <= |ids|
    decreases |chunks|
  {
    if chunks != [] {
      var last := |chunks| - 1;
      assert forall i :: 0 <= i < last ==> chunks[i].Key() != chunks[last].Key();
      KeysBound(chunks[..last], ids - {chunks[last].Key()});
    }
  }

  /** When no more chunks match than are asked for, retrieval returns a chunk for every matching point. */
  lemma RetrievalIsComplete(mode: RetrievalMode, providers: Providers, points: map<PointId, Point>, query: string,
                            filter: RetrievalFilter, limit: nat, chunks: seq<RetrievedChunk>, id: PointId)
    requires providers.SearchIn(points) && IsRetrieval(mode, providers, query, filter, limit, chunks)
    requires id in MatchingIds(points, filter) && |MatchingIds(points, filter)| <= limit
    ensures HasKey(chunks, id)
  {
    match mode
    case DenseOnly => assert Returned(points, filter, limit, chunks);
    case Hybrid(hybrid) =>
      var n := Max(limit, hybrid.candidateLimit);
      var dense, listed := providers.search(filter, n), providers.list(filter, n);
      assert Returned(points, filter, n, dense) && Returned(points, filter, n, listed);
      var ranking :| IsRanking(ranking, Candidates(hybrid, query, dense, listed)) && chunks == Head(ranking, limit);
      RankingFits(hybrid, providers, points, query, filter, n, ranking);
      assert chunks == ranking;
      var i :| 0 <= i < |dense| && dense[i].Key() == id;
      var c := Rescore(hybrid, query, DenseScores(dense), dense[i]);
      assert dense[i] in dense && c in ranking;
  }

  lemma RankingFits(hybrid: HybridConfig, providers: Providers, points: map<PointId, Point>, query: string,
                    filter: RetrievalFilter, n: nat, ranking: seq<RetrievedChunk>)
    requires providers.SearchIn(points)
    requires IsRanking(ranking, Candidates(hybrid, query, providers.search(filter, n), providers.list(filter, n)))
    ensures |ranking| <= |MatchingIds(points, filter)|
  {
    var dense, listed := providers.search(filter, n), providers.list(filter, n);
    assert Returned(points, filter, n, dense) && Returned(points, filter, n, listed);
    RankedCandidatesAreDistinct(hybrid, query, dense, listed, ranking);
    forall i | 0 <= i < |ranking|
      ensures ranking[i].Key() in MatchingIds(points, filter)
    {
      assert ranking[i] in ranking;
      var from :| (from in dense || from in listed) && ranking[i] == Rescore(hybrid, query, DenseScores(dense), from);
      SearchedFromIndex(providers, points, filter, n, from);
    }
    KeysBound(ranking, MatchingIds(points, filter));
  }

  /**
   Hybrid retrieval against brute force: when no more chunks match than the candidate limit or the
   limit itself allows, the result is the best of all matching chunks, each scored directly, best first.
   */
  lemma HybridIsBruteForce(hybrid: HybridConfig, providers: Providers, points: map<PointId, Point>, query: string,
                           filter: RetrievalFilter, limit: nat, cosine: PointId -> real, chunks: seq<RetrievedChunk>)
    requires providers.SearchIn(points) && Keyed(points) && IsRetrieval(Hybrid(hybrid), providers, query, filter, limit, chunks)
    requires |MatchingIds(points, filter)| <= hybrid.candidateLimit || |MatchingIds(points, filter)| <= limit
    requires forall n, i :: 0 <= i < |providers.search(filter, n)| ==>
      providers.search(filter, n)[i].score == cosine(providers.search(filter, n)[i].Key())
    ensures BestFirst(chunks) && BestOf(chunks, BruteForce(hybrid, query, points, filter, cosine), limit)
  {
    var n := Max(limit, hybrid.candidateLimit);
    var dense, listed := providers.search(filter, n), providers.list(filter, n);
    assert Returned(points, filter, n, dense) && Returned(points, filter, n, listed);
    RankingIsBruteForce(hybrid, query, points, filter, cosine, n, dense, listed);
    var brute := BruteForce(hybrid, query, points, filter, cosine);
    var ranking :| IsRanking(ranking, brute) && chunks == Head(ranking, limit);
    RankingIsBestFirst(ranking, brute, limit);
  }

  /** Preserved scores: with room for all chunks, one is shown exactly when its score reaches the threshold. */
  lemma PreservedIsShown(chunks: seq<RetrievedChunk>, topK: nat, minRelevance: real, i: nat)
    requires UniqueKeys(chunks) && i < |chunks| <= topK
    ensures RerankedChunk(chunks[i], chunks[i].score) in Supported(PreserveScores(Head(chunks, topK)), minRelevance)
      <==> chunks[i].score >= minRelevance
  {
    var reranked := PreserveScores(chunks);
    assert Head(chunks, topK) == chunks;
    assert Selection(chunks, reranked);
    SupportedSelects(chunks, reranked, minRelevance);
    assert reranked[i] in reranked;
  }

  lemma RetrievedFit(mode: RetrievalMode, providers: Providers, points: map<PointId, Point>, query: string,
                     filter: RetrievalFilter, limit: nat, chunks: seq<RetrievedChunk>)
    requires providers.SearchIn(points) && IsRetrieval(mode, providers, query, filter, limit, chunks)
    ensures UniqueKeys(chunks) && |chunks| <= |MatchingIds(points, filter)|
  {
    RetrievedAreDistinct(mode, providers, points, query, filter, limit, chunks);
    forall k | 0 <= k < |chunks|
      ensures chunks[k].Key() in MatchingIds(points, filter)
    {
      RetrievedFromIndex(mode, providers, points, query, filter, limit, chunks, chunks[k]);
    }
    KeysBound(chunks, MatchingIds(points, filter));
  }

  lemma PreservedStages(cfg: ChatConfig, ctx: Context, request: ChatRequest, providers: Providers,
                        stages: Stages, response: ChatResponse)
    requires cfg.reranker.ScorePreserving? && IsOutcome(cfg, ctx, request, providers, stages, Ok(response))
    ensures IsRetrieval(cfg.retrieval, providers, request.question, FilterOf(ctx, request), RetrievalLimit(cfg, request), stages.retrieved)
    ensures stages.retrieved != [] ==>
      stages.shown == Supported(PreserveScores(Head(stages.retrieved, FinalTopK(cfg, request))), cfg.minRelevance)
  {
    var topK := FinalTopK(cfg, request);
    assert IsReranking(cfg.reranker, providers, request.question, topK, stages.retrieved, PreserveScores(Head(stages.retrieved, topK)));
  }

  /**
   The converse of grounding, for the score-preserving reranker: when no more chunks match the
   request than may be shown, each of them is retrieved, and it is shown exactly when its score
   reaches the threshold.
   */
  lemma NothingPermittedIsWithheld(cfg: ChatConfig, ctx: Context, request: ChatRequest, providers: Providers,
                                   points: map<PointId, Point>, stages: Stages, response: ChatResponse, id: PointId)
    returns (c: RetrievedChunk)
    requires providers.SearchIn(points) && cfg.reranker.ScorePreserving?
    requires IsOutcome(cfg, ctx, request, providers, stages, Ok(response))
    requires id in MatchingIds(points, FilterOf(ctx, request))
    requires |MatchingIds(points, FilterOf(ctx, request))| <= FinalTopK(cfg, request)
    ensures c.Key() == id && c in stages.retrieved
    ensures RerankedChunk(c, c.score) in stages.shown <==> c.score >= cfg.minRelevance
  {
    var filter, limit, chunks := FilterOf(ctx, request), RetrievalLimit(cfg, request), stages.retrieved;
    PreservedStages(cfg, ctx, request, providers, stages, response);
    RetrievalIsComplete(cfg.retrieval, providers, points, request.question, filter, limit, chunks, id);
    RetrievedFit(cfg.retrieval, providers, points, request.question, filter, limit, chunks);
    var i: nat :| i < |chunks| && chunks[i].Key() == id;
    c := chunks[i];
    PreservedIsShown(chunks, FinalTopK(cfg, request), cfg.minRelevance, i);
  }

  // ----- what is cited is there -----

  /** Every reachable index stores its points under their own document ids and chunk indexes. */
  lemma ReachableIndexIsKeyed(env: Env, sys: System)
    requires env.Valid() && Reachable(env, sys)
    ensures Keyed(sys.state.points)
  {
    ReachableInv(env, sys);
    forall id | id in sys.state.points
      ensures sys.state.points[id].documentId == id.documentId && sys.state.points[id].chunkIndex == id.index
    {
      var o := sys.origins[id.documentId];
      assert DocumentOk(env, sys.state, id.documentId, o);
      assert id == PointId(id.documentId, id.index);
      assert PointFits(env, sys.state.points[id], id.documentId, o, id.index);
    }
  }

  /**
   Over all runs of the lifecycle: a citation permitted on the current index names a document with
   a record in the caller's workspace, under the record's own filename and level, and the shown
   text is a chunk of the bytes in storage.
   */
  lemma CitedChunksAreStored(env: Env, sys: System, cfg: ChatConfig, ctx: Context, request: ChatRequest,
                             shown: seq<RerankedChunk>, c: Citation)
    requires env.Valid() && Reachable(env, sys)
    requires CitesPermitted(cfg, sys.state.points, ctx, request, shown, c)
    ensures var k := DocKey(ctx.workspaceId, c.documentId);
      && k in sys.state.records
      && var r := sys.state.records[k];
      && r.filename == c.filename && r.securityLevel == c.securityLevel
      && r.storageKey in sys.state.objects
      && IsStoredChunk(env, r, sys.state.objects[r.storageKey], c.chunkIndex, shown[c.id - 1].chunk.chunkText)
  {
    var s, id, k := sys.state, PointId(c.documentId, c.chunkIndex), DocKey(ctx.workspaceId, c.documentId);
    NothingIsOrphaned(env, sys);
    assert k in s.records;
    ReachableInv(env, sys);
    var o := sys.origins[c.documentId];
    assert DocumentOk(env, s, c.documentId, o);
    assert PointFits(env, s.points[id], c.documentId, o, c.chunkIndex);
  }

  /** The text is the chunk with this index of the parsed bytes. */
  ghost predicate IsStoredChunk(env: Env, r: Record, data: Bytes, index: nat, text: string)
    requires env.Valid()
  {
    var parsed := Parse(env, r.filename, data);
    && parsed.Ok?
    && var chunks := Chunker.Chunks(env.chunker, parsed.value.text);
    && index < |chunks| && text == chunks[index]
  }

  /** After a deletion, whatever happens later, no response on the index cites the document. */
  lemma DeletedIsNeverCited(env: Env, sys: System, deleter: Context, documentId: string, later: seq<Step>,
                            cfg: ChatConfig, ctx: Context, request: ChatRequest, shown: seq<RerankedChunk>, c: Citation)
    requires env.Valid() && Reachable(env, sys) && Authorize(sys.state, deleter, documentId).Ok?
    requires var after := Execute(env, Take(env, sys, DoDelete(deleter, documentId)), later);
      after.Some? && CitesPermitted(cfg, after.value.state.points, ctx, request, shown, c)
    ensures c.documentId != documentId
  {
    DeletedStaysDeleted(env, sys, deleter, documentId, later);
  }
}
