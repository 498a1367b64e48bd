/** Answering questions from the chunk index: retrieval, reranking, generation, citations and audit. */
module Chat {
  import opened Citations
  import opened Documents
  import opened Filters
  import opened JsonValues
  import opened Replies
  import opened Retrieval
  import opened Security
  import opened Sequences
  import opened Wrappers

  // ----- configuration, requests and responses -----

  datatype RetrievalMode = DenseOnly | Hybrid(hybrid: HybridConfig)

  datatype RerankerBackend = ScorePreserving | Bge

  datatype ChatConfig = ChatConfig(
    retrieval: RetrievalMode, reranker: RerankerBackend, retrievalLimit: nat, rerankTopK: nat,
    minRelevance: real, digits: DigitTable) {

    ghost predicate Valid() {
      rerankTopK >= 1 && digits.Valid()
    }
  }

  datatype ChatRequest = ChatRequest(
    question: string, documentIds: Option<seq<string>>, securityLevels: Option<seq<string>>, topK: Option<nat>)

  datatype Citation = Citation(
    id: nat, documentId: string, filename: string, securityLevel: string, chunkIndex: nat,
    score: real, rerankScore: real)

  datatype Usage = Usage(promptTokens: Option<int>, completionTokens: Option<int>, totalTokens: Option<int>)

  datatype ChatResponse = ChatResponse(
    answer: string, model: string, citations: seq<Citation>, usage: Usage, retrievedChunkCount: nat)

  datatype AuditCitation = AuditCitation(
    id: nat, documentId: string, filename: string, chunkIndex: nat, score: real, rerankScore: real)

  datatype AuditEvent = AuditEvent(
    workspaceId: string, workspaceName: string, question: string, documentIds: Option<seq<string>>,
    retrievalLimit: nat, rerankTopK: nat, retrievedChunkCount: nat, model: string,
    answerCharacterCount: nat, usage: Usage, citations: seq<AuditCitation>)

  datatype ChatError =
    | LevelsRefused(error: SecurityError)
    | EmbeddingUnavailable
    | RerankerUnavailable
    | GenerationUnavailable

  datatype Generated = Generated(content: string, model: string, usage: Usage)

  /**
   What the outside answers while one question is served: whether its embedding fails, what the
   store returns for a filter and a limit (by similarity, and as a plain listing), the reranker's
   reply to a query, texts and a count, and the model's reply to a prompt.
   */
  datatype Providers = Providers(
    embeddingFails: bool,
    search: (RetrievalFilter, nat) -> seq<RetrievedChunk>,
    list: (RetrievalFilter, nat) -> seq<RetrievedChunk>,
    rerank: (string, seq<string>, nat) -> Result<Json, string>,
    generate: string -> Result<Generated, string>) {

    /** The store answers from these points. */
    ghost predicate SearchIn(points: map<PointId, Point>) {
      && (forall f, n :: Returned(points, f, n, search(f, n)))
      && (forall f, n :: Returned(points, f, n, list(f, n)))
    }
  }

  const NO_ANSWER := "모르겠습니다. 제공된 문서에서 답변 근거를 찾지 못했습니다."
  const NO_ANSWER_MODEL := "grounding-policy"
  const NO_USAGE := Usage(None, None, None)

  function Refusal(shownCount: nat, usage: Usage): ChatResponse {
    ChatResponse(NO_ANSWER, NO_ANSWER_MODEL, [], usage, shownCount)
  }

  // ----- the prompt -----

  function Label(number: nat, c: RetrievedChunk): string {
    "[" + Numeral(number) + "] " + c.filename + "#" + Numeral(c.chunkIndex) + "\n" + c.chunkText
  }

  /** The numbered context of the chunks, the first of which gets the number `from`. */
  function NumberedContext(shown: seq<RerankedChunk>, from: nat): string {
    if shown == [] then ""
    else if |shown| == 1 then Label(from, shown[0].chunk)
    else Label(from, shown[0].chunk) + "\n\n" + NumberedContext(shown[1..], from + 1)
  }

  function UserPrompt(question: string, shown: seq<RerankedChunk>): string {
    "질문:\n" + question + "\n\n" + "문서 컨텍스트:\n" + NumberedContext(shown, 1) + "\n\n"
    + "위 컨텍스트만 근거로 답하고, 문장 끝에 관련 출처 번호를 붙이세요."
  }

  ghost predicate Contains(text: string, part: string) {
    exists before, after :: text == before + part + after
  }

  lemma ContainsInside(outer: string, before: string, text: string, after: string, part: string)
    requires outer == before + text + after && Contains(text, part)
    ensures Contains(outer, part)
  {
    var b, a :| text == b + part + a;
    assert outer == (before + b) + part + (a + after);
  }

  lemma ContainsFirst(first: string, separator: string, rest: string)
    ensures Contains(first, first) && Contains(first + separator + rest, first)
  {
    assert first == "" + first + "";
    assert first + separator + rest == "" + first + (separator + rest);
  }

  lemma ContainsLater(first: string, separator: string, rest: string, part: string)
    requires Contains(rest, part)
    ensures Contains(first + separator + rest, part)
  {
    assert first + separator + rest == (first + separator) + rest + "";
    ContainsInside(first + separator + rest, first + separator, rest, "", part);
  }

  lemma {:induction false} ContextNumbers(shown: seq<RerankedChunk>, from: nat, k: nat)
    requires k < |shown|
    ensures Contains(NumberedContext(shown, from), Label(from + k, shown[k].chunk))
  {
    var first, rest := Label(from, shown[0].chunk), NumberedContext(shown[1..], from + 1);
    if k == 0 {
      ContainsFirst(first, "\n\n", rest);
    } else {
      ContextNumbers(shown[1..], from + 1, k - 1);
      ContainsLater(first, "\n\n", rest, Label(from + k, shown[k].chunk));
    }
  }

  /** The prompt asks the question. */
  lemma PromptAsks(question: string, shown: seq<RerankedChunk>)
    ensures Contains(UserPrompt(question, shown), "질문:\n" + question + "\n\n")
  {
    ContainsStart("질문:\n" + question + "\n\n", "문서 컨텍스트:\n", NumberedContext(shown, 1), "\n\n",
                  "위 컨텍스트만 근거로 답하고, 문장 끝에 관련 출처 번호를 붙이세요.");
  }

  lemma ContainsStart(start: string, a: string, b: string, c: string, d: string)
    ensures Contains(start + a + b + c + d, start)
  {
    assert start + a + b + c + d == "" + start + (a + b + c + d);
  }

  /** The prompt shows every chunk under its number, with its filename, its index and its text. */
  lemma PromptNumbersChunks(question: string, shown: seq<RerankedChunk>, k: nat)
    requires k < |shown|
    ensures var c := shown[k].chunk;
      Contains(UserPrompt(question, shown), "[" + Numeral(k + 1) + "] " + c.filename + "#" + Numeral(c.chunkIndex) + "\n" + c.chunkText)
  {
    ContextNumbers(shown, 1, k);
    var before := "질문:\n" + question + "\n\n" + "문서 컨텍스트:\n";
    var after := "\n\n" + "위 컨텍스트만 근거로 답하고, 문장 끝에 관련 출처 번호를 붙이세요.";
    assert UserPrompt(question, shown) == before + NumberedContext(shown, 1) + after;
    ContainsInside(UserPrompt(question, shown), before, NumberedContext(shown, 1), after, Label(k + 1, shown[k].chunk));
  }

  // ----- limits and filters -----

  function FinalTopK(cfg: ChatConfig, request: ChatRequest): nat {
    if request.topK.Some? && request.topK.value != 0 then request.topK.value else cfg.rerankTopK
  }

  function RetrievalLimit(cfg: ChatConfig, request: ChatRequest): nat {
    Max(cfg.retrievalLimit, FinalTopK(cfg, request))
  }

  function FilterOf(ctx: Context, request: ChatRequest): RetrievalFilter {
    RetrievalFilter(ctx.workspaceId, request.documentIds, request.securityLevels)
  }

  // ----- what each stage may hand on -----

  /** The retriever's result: the store's own order, or the head of the hybrid ranking. */
  ghost predicate IsRetrieval(mode: RetrievalMode, providers: Providers, query: string, filter: RetrievalFilter,
                              limit: nat, chunks: seq<RetrievedChunk>)
  {
    match mode
    case DenseOnly => chunks == providers.search(filter, limit)
    case Hybrid(hybrid) =>
      var n := Max(limit, hybrid.candidateLimit);
      IsHeadOfRanking(chunks, Candidates(hybrid, query, providers.search(filter, n), providers.list(filter, n)), limit)
  }

  function Texts(chunks: seq<RetrievedChunk>): (texts: seq<string>)
    ensures |texts| == |chunks| && forall i :: 0 <= i < |chunks| ==> texts[i] == chunks[i].chunkText
  {
    seq(|chunks|, i requires 0 <= i < |chunks| => chunks[i].chunkText)
  }

  /** The reranker's result. */
  ghost predicate IsReranking(backend: RerankerBackend, providers: Providers, query: string, topK: nat,
                              chunks: seq<RetrievedChunk>, reranked: seq<RerankedChunk>)
  {
    match backend
    case ScorePreserving => reranked == PreserveScores(Head(chunks, topK))
    case Bge =>
      var reply := providers.rerank(query, Texts(chunks), topK);
      && reply.Ok? && Field(reply.value, "results").JList?
      && Accepted(Head(Field(reply.value, "results").items, topK), chunks, reranked)
  }

  /** The chunks whose score reaches the threshold, in their order. */
  function Supported(reranked: seq<RerankedChunk>, minRelevance: real): seq<RerankedChunk> {
    if reranked == [] then []
    else
      var rest := Supported(reranked[1..], minRelevance);
      if reranked[0].rerankScore >= minRelevance then [reranked[0]] + rest else rest
  }

  function CitationOf(id: nat, item: RerankedChunk): Citation {
    Citation(id, item.chunk.documentId, item.chunk.filename, item.chunk.securityLevel, item.chunk.chunkIndex,
             item.chunk.score, item.rerankScore)
  }

  /** One citation for each id, of the chunk shown under it. */
  ghost predicate AreCitations(shown: seq<RerankedChunk>, ids: seq<nat>, citations: seq<Citation>) {
    && |citations| == |ids|
    && forall i :: 0 <= i < |ids| ==> 1 <= ids[i] <= |shown| && citations[i] == CitationOf(ids[i], shown[ids[i] - 1])
  }

  /** The response to a generated text: its citations are the chunks shown under the numbers it cites. */
  ghost predicate IsAnswer(digits: DigitTable, generated: Generated, shown: seq<RerankedChunk>, response: ChatResponse) {
    if forall id :: 1 <= id <= |shown| ==> !Cites(digits, generated.content, id) then
      response == Refusal(|shown|, generated.usage)
    else
      exists ids ::
        && AreCitationIds(digits, generated.content, |shown|, ids)
        && AreCitations(shown, ids, response.citations)
        && response == ChatResponse(generated.content, generated.model, response.citations, generated.usage, |shown|)
  }

  /** What the stages handed on while one question was served. */
  datatype Stages = Stages(retrieved: seq<RetrievedChunk>, reranked: seq<RerankedChunk>, shown: seq<RerankedChunk>)

  /** The outcome of one question: the error of the first stage that fails, or the response. */
  ghost predicate IsOutcome(cfg: ChatConfig, ctx: Context, request: ChatRequest, providers: Providers,
                            stages: Stages, r: Result<ChatResponse, ChatError>)
  {
    var topK := FinalTopK(cfg, request);
    if providers.embeddingFails then r == Err(EmbeddingUnavailable)
    else
      && IsRetrieval(cfg.retrieval, providers, request.question, FilterOf(ctx, request), RetrievalLimit(cfg, request), stages.retrieved)
      && if stages.retrieved == [] then r == Ok(Refusal(0, NO_USAGE))
         else if forall x :: !IsReranking(cfg.reranker, providers, request.question, topK, stages.retrieved, x) then
           r == Err(RerankerUnavailable)
         else
           && IsReranking(cfg.reranker, providers, request.question, topK, stages.retrieved, stages.reranked)
           && stages.shown == Supported(stages.reranked, cfg.minRelevance)
           && if stages.shown == [] then r == Ok(Refusal(0, NO_USAGE))
              else
                match providers.generate(UserPrompt(request.question, stages.shown))
                case Err(_) => r == Err(GenerationUnavailable)
                case Ok(generated) => r.Ok? && IsAnswer(cfg.digits, generated, stages.shown, r.value)
  }

  /**
   What a response holds: the refusal before the model is asked, without usage; and afterwards the
   number of chunks shown and the model's usage, with its text and name if the response cites.
   */
  ghost predicate HasFields(stages: Stages, consulted: Option<Generated>, response: ChatResponse) {
    match consulted
    case None =>
      response == ChatResponse("모르겠습니다. 제공된 문서에서 답변 근거를 찾지 못했습니다.", "grounding-policy", [], Usage(None, None, None), 0)
    case Some(generated) =>
      && response.retrievedChunkCount == |stages.shown| && response.usage == generated.usage
      && if response.citations == [] then
           response.answer == "모르겠습니다. 제공된 문서에서 답변 근거를 찾지 못했습니다." && response.model == "grounding-policy"
         else response.answer == generated.content && response.model == generated.model
  }

  lemma ResponseFields(cfg: ChatConfig, ctx: Context, request: ChatRequest, providers: Providers,
                       stages: Stages, response: ChatResponse) returns (consulted: Option<Generated>)
    requires IsOutcome(cfg, ctx, request, providers, stages, Ok(response))
    ensures HasFields(stages, consulted, response)
    ensures consulted.Some? <==> stages.retrieved != [] && stages.shown != []
    ensures consulted.Some? ==> providers.generate(UserPrompt(request.question, stages.shown)) == Ok(consulted.value)
  {
    consulted := None;
    if stages.retrieved != [] && stages.shown != [] {
      var generated := providers.generate(UserPrompt(request.question, stages.shown)).value;
      CitationsOfAnswer(cfg.digits, generated, stages.shown, response);
      FieldsOfAnswer(cfg.digits, generated, stages.shown, response);
      consulted := Some(generated);
    }
  }

  lemma FieldsOfAnswer(digits: DigitTable, generated: Generated, shown: seq<RerankedChunk>, response: ChatResponse)
    requires IsAnswer(digits, generated, shown, response)
    ensures response.retrievedChunkCount == |shown| && response.usage == generated.usage
    ensures response.citations != [] ==> response.model == generated.model
  {
  }

  // ----- the audit log -----

  /** The event of a response: the caller's workspace, the request and its limits, and the response with every citation. */
  ghost predicate Logs(event: AuditEvent, cfg: ChatConfig, ctx: Context, request: ChatRequest, response: ChatResponse) {
    && event.workspaceId == ctx.workspaceId && event.workspaceName == ctx.workspaceName
    && event.question == request.question && event.documentIds == request.documentIds
    && event.rerankTopK == (if request.topK.Some? && request.topK.value != 0 then request.topK.value else cfg.rerankTopK)
    && event.retrievalLimit == (if cfg.retrievalLimit >= event.rerankTopK then cfg.retrievalLimit else event.rerankTopK)
    && event.retrievedChunkCount == response.retrievedChunkCount
    && event.model == response.model && event.answerCharacterCount == |response.answer| && event.usage == response.usage
    && |event.citations| == |response.citations|
    && forall i :: 0 <= i < |response.citations| ==>
         var logged, c := event.citations[i], response.citations[i];
         && logged.id == c.id && logged.documentId == c.documentId && logged.filename == c.filename
         && logged.chunkIndex == c.chunkIndex && logged.score == c.score && logged.rerankScore == c.rerankScore
  }

  /** The log has grown by one event, that of the response. */
  ghost predicate LogsOnce(log: seq<AuditEvent>, log': seq<AuditEvent>, cfg: ChatConfig, ctx: Context, request: ChatRequest,
                           response: ChatResponse)
  {
    |log'| == |log| + 1 && log'[..|log|] == log && Logs(log'[|log|], cfg, ctx, request, response)
  }

  function Audited(citations: seq<Citation>): seq<AuditCitation> {
    seq(|citations|, i requires 0 <= i < |citations| =>
      var c := citations[i];
      AuditCitation(c.id, c.documentId, c.filename, c.chunkIndex, c.score, c.rerankScore))
  }

  function EventOf(cfg: ChatConfig, ctx: Context, request: ChatRequest, response: ChatResponse): AuditEvent {
    AuditEvent(ctx.workspaceId, ctx.workspaceName, request.question, request.documentIds,
               RetrievalLimit(cfg, request), FinalTopK(cfg, request), response.retrievedChunkCount, response.model,
               |response.answer|, response.usage, Audited(response.citations))
  }

  // ----- every stage keeps to the permitted chunks -----

  /** A chunk of the index that the filter lets through, as it is stored. */
  ghost predicate FromIndex(points: map<PointId, Point>, filter: RetrievalFilter, c: RetrievedChunk) {
    c.Key() in MatchingIds(points, filter) && c == ToChunk(points[c.Key()], c.score)
  }

  lemma SearchedFromIndex(providers: Providers, points: map<PointId, Point>, filter: RetrievalFilter, n: nat, c: RetrievedChunk)
    requires providers.SearchIn(points) && (c in providers.search(filter, n) || c in providers.list(filter, n))
    ensures FromIndex(points, filter, c)
  {
    if c in providers.search(filter, n) {
      ReturnedChunk(points, filter, n, providers.search(filter, n), c);
    } else {
      ReturnedChunk(points, filter, n, providers.list(filter, n), c);
    }
  }

  lemma RetrievedFromIndex(mode: RetrievalMode, providers: Providers, points: map<PointId, Point>, query: string,
                           filter: RetrievalFilter, limit: nat, chunks: seq<RetrievedChunk>, c: RetrievedChunk)
    requires providers.SearchIn(points) && IsRetrieval(mode, providers, query, filter, limit, chunks) && c in chunks
    ensures FromIndex(points, filter, c)
  {
    match mode
    case DenseOnly => SearchedFromIndex(providers, points, filter, limit, c);
    case Hybrid(hybrid) =>
      var n := Max(limit, hybrid.candidateLimit);
      var dense, listed := providers.search(filter, n), providers.list(filter, n);
      var ranking :| IsRanking(ranking, Candidates(hybrid, query, dense, listed)) && chunks == Head(ranking, limit);
      assert c in ranking;
      var from :| (from in dense || from in listed) && c == Rescore(hybrid, query, DenseScores(dense), from);
      SearchedFromIndex(providers, points, filter, n, from);
  }

  lemma RetrievedAreDistinct(mode: RetrievalMode, providers: Providers, points: map<PointId, Point>, query: string,
                             filter: RetrievalFilter, limit: nat, chunks: seq<RetrievedChunk>)
    requires providers.SearchIn(points) && IsRetrieval(mode, providers, query, filter, limit, chunks)
    ensures UniqueKeys(chunks)
  {
    match mode
    case DenseOnly => assert Returned(points, filter, limit, chunks);
    case Hybrid(hybrid) =>
      var n := Max(limit, hybrid.candidateLimit);
      var dense, listed := providers.search(filter, n), providers.list(filter, n);
      assert Returned(points, filter, n, dense) && Returned(points, filter, n, listed);
      var ranking :| IsRanking(ranking, Candidates(hybrid, query, dense, listed)) && chunks == Head(ranking, limit);
      RankedCandidatesAreDistinct(hybrid, query, dense, listed, ranking);
  }

  lemma RerankingSelects(backend: RerankerBackend, providers: Providers, query: string, topK: nat,
                         chunks: seq<RetrievedChunk>, reranked: seq<RerankedChunk>)
    requires UniqueKeys(chunks) && IsReranking(backend, providers, query, topK, chunks, reranked)
    ensures Selection(chunks, reranked) && |reranked| <= topK
  {
    if backend.Bge? {
      var items := Field(providers.rerank(query, Texts(chunks), topK).value, "results").items;
      AcceptedRepliesSelect(Head(items, topK), chunks, reranked);
    }
  }

  lemma {:induction false} SupportedSelects(chunks: seq<RetrievedChunk>, reranked: seq<RerankedChunk>, minRelevance: real)
    requires Selection(chunks, reranked)
    ensures var shown := Supported(reranked, minRelevance);
      && Selection(chunks, shown) && |shown| <= |reranked|
      && (forall item :: item in shown <==> item in reranked && item.rerankScore >= minRelevance)
  {
    if reranked != [] {
      var first, rest := reranked[0], Supported(reranked[1..], minRelevance);
      SupportedSelects(chunks, reranked[1..], minRelevance);
      assert forall item :: item in reranked <==> item == first || item in reranked[1..];
      forall k | 0 <= k < |rest|
        ensures rest[k].chunk.Key() != first.chunk.Key()
      {
        assert rest[k] in rest;
        var j :| 0 <= j < |reranked[1..]| && reranked[1..][j] == rest[k];
        assert reranked[j + 1] == rest[k];
      }
    }
  }

  /** `from` tells where in the longer list each element of the shorter one stands, in the same order. */
  ghost predicate InOrder(shorter: seq<RerankedChunk>, longer: seq<RerankedChunk>, from: seq<nat>) {
    && |from| == |shorter|
    && (forall k :: 0 <= k < |from| ==> from[k] < |longer| && shorter[k] == longer[from[k]])
    && (forall j, k :: 0 <= j < k < |from| ==> from[j] < from[k])
  }

  lemma InOrderAfter(shorter: seq<RerankedChunk>, longer: seq<RerankedChunk>, from: seq<nat>, first: RerankedChunk) returns (later: seq<nat>)
    requires InOrder(shorter, longer, from)
    ensures InOrder(shorter, [first] + longer, later) && InOrder([first] + shorter, [first] + longer, [0] + later)
  {
    later := seq(|from|, k requires 0 <= k < |from| => from[k] + 1);
  }

  /** The supported chunks keep their order. */
  lemma {:induction false} SupportedKeepsOrder(reranked: seq<RerankedChunk>, minRelevance: real) returns (from: seq<nat>)
    ensures InOrder(Supported(reranked, minRelevance), reranked, from)
  {
    if reranked == [] {
      from := [];
    } else {
      var rest := SupportedKeepsOrder(reranked[1..], minRelevance);
      var later := InOrderAfter(Supported(reranked[1..], minRelevance), reranked[1..], rest, reranked[0]);
      assert [reranked[0]] + reranked[1..] == reranked;
      from := if reranked[0].rerankScore >= minRelevance then [0] + later else later;
    }
  }

  /** What the prompt shows: distinct chunks of the index that the filter lets through, with enough relevance. */
  ghost predicate Grounded(points: map<PointId, Point>, filter: RetrievalFilter, minRelevance: real, shown: seq<RerankedChunk>) {
    && (forall k :: 0 <= k < |shown| ==> FromIndex(points, filter, shown[k].chunk) && shown[k].rerankScore >= minRelevance)
    && (forall j, k :: 0 <= j < k < |shown| ==> shown[j].chunk.Key() != shown[k].chunk.Key())
  }

  lemma ShownIsGrounded(cfg: ChatConfig, ctx: Context, request: ChatRequest, providers: Providers,
                        points: map<PointId, Point>, stages: Stages)
    requires providers.SearchIn(points)
    requires IsRetrieval(cfg.retrieval, providers, request.question, FilterOf(ctx, request), RetrievalLimit(cfg, request), stages.retrieved)
    requires IsReranking(cfg.reranker, providers, request.question, FinalTopK(cfg, request), stages.retrieved, stages.reranked)
    requires stages.shown == Supported(stages.reranked, cfg.minRelevance)
    ensures Grounded(points, FilterOf(ctx, request), cfg.minRelevance, stages.shown)
    ensures |stages.shown| <= FinalTopK(cfg, request)
  {
    RetrievedAreDistinct(cfg.retrieval, providers, points, request.question, FilterOf(ctx, request), RetrievalLimit(cfg, request), stages.retrieved);
    RerankingSelects(cfg.reranker, providers, request.question, FinalTopK(cfg, request), stages.retrieved, stages.reranked);
    SupportedSelects(stages.retrieved, stages.reranked, cfg.minRelevance);
    forall k | 0 <= k < |stages.shown|
      ensures FromIndex(points, FilterOf(ctx, request), stages.shown[k].chunk) && stages.shown[k].rerankScore >= cfg.minRelevance
    {
      assert stages.shown[k] in stages.shown;
      RetrievedFromIndex(cfg.retrieval, providers, points, request.question, FilterOf(ctx, request),
                         RetrievalLimit(cfg, request), stages.retrieved, stages.shown[k].chunk);
    }
  }

  // ----- what a response may cite -----

  /** What a caller may get an answer from: its workspace, the documents and levels it asks for, the levels of its role. */
  ghost predicate MaySee(ctx: Context, request: ChatRequest, p: Point) {
    && p.workspaceId == ctx.workspaceId
    && (request.documentIds.Some? && request.documentIds.value != [] ==> p.documentId in request.documentIds.value)
    && (request.securityLevels.Some? && request.securityLevels.value != [] ==> IsRequested(request.securityLevels.value, p.securityLevel))
    && (ctx.role == "admin" || p.securityLevel == "general" || p.securityLevel == "internal")
  }

  /** The citation names, under its number in the prompt, a relevant chunk of the index that the caller may see. */
  ghost predicate CitesPermitted(cfg: ChatConfig, points: map<PointId, Point>, ctx: Context, request: ChatRequest,
                                 shown: seq<RerankedChunk>, c: Citation)
  {
    var id := PointId(c.documentId, c.chunkIndex);
    && 1 <= c.id <= |shown|
    && shown[c.id - 1].chunk.documentId == c.documentId && shown[c.id - 1].chunk.chunkIndex == c.chunkIndex
    && shown[c.id - 1].chunk.score == c.score && shown[c.id - 1].rerankScore == c.rerankScore >= cfg.minRelevance
    && id in points && shown[c.id - 1].chunk.chunkText == points[id].chunkText
    && c.filename == points[id].filename && c.securityLevel == points[id].securityLevel
    && MaySee(ctx, request, points[id])
  }

  ghost predicate CitesDistinctChunks(citations: seq<Citation>) {
    forall i, j :: 0 <= i < j < |citations| ==>
      && citations[i].id != citations[j].id
      && (citations[i].documentId, citations[i].chunkIndex) != (citations[j].documentId, citations[j].chunkIndex)
  }

  /** The numbers of the citations are those that the text cites, each once; each stands for the chunk shown under it. */
  ghost predicate CitesWhatIsCited(digits: DigitTable, content: string, shown: seq<RerankedChunk>, citations: seq<Citation>) {
    && (forall i :: 0 <= i < |citations| ==>
         var c := citations[i];
         1 <= c.id <= |shown| && c == CitationOf(c.id, shown[c.id - 1]) && Cites(digits, content, c.id))
    && (forall i, j :: 0 <= i < j < |citations| ==> citations[i].id != citations[j].id)
    && (forall id :: 1 <= id <= |shown| && Cites(digits, content, id) ==>
         exists i :: 0 <= i < |citations| && citations[i].id == id)
  }

  lemma CitationsOfIds(digits: DigitTable, content: string, shown: seq<RerankedChunk>, ids: seq<nat>, citations: seq<Citation>)
    requires AreCitationIds(digits, content, |shown|, ids) && AreCitations(shown, ids, citations)
    ensures CitesWhatIsCited(digits, content, shown, citations)
  {
    forall i | 0 <= i < |ids|
      ensures citations[i].id == ids[i] && Cites(digits, content, ids[i])
    {
      assert ids[i] in ids;
    }
    forall id | 1 <= id <= |shown| && Cites(digits, content, id)
      ensures exists i :: 0 <= i < |citations| && citations[i].id == id
    {
      assert id in ids;
      var i :| 0 <= i < |ids| && ids[i] == id;
      assert citations[i].id == id;
    }
  }

  /** An answer cites exactly the shown chunks that its text cites, and is the refusal if there are none. */
  lemma CitationsOfAnswer(digits: DigitTable, generated: Generated, shown: seq<RerankedChunk>, response: ChatResponse)
    requires IsAnswer(digits, generated, shown, response)
    ensures CitesWhatIsCited(digits, generated.content, shown, response.citations)
    ensures if response.citations == [] then response == Refusal(|shown|, generated.usage) else response.answer == generated.content
  {
    if exists id :: 1 <= id <= |shown| && Cites(digits, generated.content, id) {
      var id :| 1 <= id <= |shown| && Cites(digits, generated.content, id);
      var ids :| AreCitationIds(digits, generated.content, |shown|, ids) && AreCitations(shown, ids, response.citations);
      CitationsOfIds(digits, generated.content, shown, ids, response.citations);
      assert id in ids;
    }
  }

  /** The levels that a role is granted for a request: those it asks for, or else all that the role handles. */
  ghost predicate Grants(role: string, requested: Option<seq<string>>, granted: Option<seq<string>>) {
    if requested.Some? && requested.value != [] then
      && granted.Some? && granted.value != []
      && (forall level :: level in granted.value <==> IsRequested(requested.value, level))
      && (forall level :: level in granted.value ==> role == "admin" || IsOpen(level))
    else if role == "admin" then granted == None
    else granted.Some? && granted.value != [] && forall level :: level in granted.value <==> IsOpen(level)
  }

  /** What the role is granted, in the words of the levels. */
  lemma GrantedLevels(role: string, requested: Option<seq<string>>, granted: Option<seq<string>>)
    requires requested.None? || requested.value == [] ==> granted == if role == ADMIN then None else Some(AllowedLevels(role))
    requires requested.Some? && requested.value != [] ==>
      && granted.Some? && granted.value != []
      && (forall level :: level in granted.value <==> IsRequested(requested.value, level))
      && (forall level :: level in granted.value ==> level in AllowedLevels(role))
    ensures Grants(role, requested, granted)
  {
    forall level: string
      ensures level in AllowedLevels(role) <==> IsOpen(level) || (role == "admin" && IsLevel(level))
    {
      RoleLevels(role, level);
    }
    assert AllowedLevels(role)[0] == GENERAL;
  }

  /** The filter of a request with granted levels lets through exactly what the caller may see. */
  lemma FilterProtects(ctx: Context, request: ChatRequest, granted: Option<seq<string>>, p: Point)
    requires Grants(ctx.role, request.securityLevels, granted)
    ensures Matches(BuildQdrantFilter(FilterOf(ctx, request.(securityLevels := granted))), p) <==> MaySee(ctx, request, p)
  {
    FilterMeaning(FilterOf(ctx, request.(securityLevels := granted)), p);
  }

  lemma CitationsArePermitted(cfg: ChatConfig, ctx: Context, request: ChatRequest, granted: Option<seq<string>>,
                              points: map<PointId, Point>, shown: seq<RerankedChunk>, content: string, citations: seq<Citation>)
    requires Keyed(points) && Grants(ctx.role, request.securityLevels, granted)
    requires Grounded(points, FilterOf(ctx, request.(securityLevels := granted)), cfg.minRelevance, shown)
    requires CitesWhatIsCited(cfg.digits, content, shown, citations)
    ensures forall i :: 0 <= i < |citations| ==> CitesPermitted(cfg, points, ctx, request, shown, citations[i])
    ensures CitesDistinctChunks(citations)
  {
    forall i | 0 <= i < |citations|
      ensures CitesPermitted(cfg, points, ctx, request, shown, citations[i])
    {
      var chunk := shown[citations[i].id - 1].chunk;
      assert FromIndex(points, FilterOf(ctx, request.(securityLevels := granted)), chunk);
      FilterProtects(ctx, request, granted, points[chunk.Key()]);
    }
    forall i, j | 0 <= i < j < |citations|
      ensures (citations[i].documentId, citations[i].chunkIndex) != (citations[j].documentId, citations[j].chunkIndex)
    {
      var a, b := citations[i].id - 1, citations[j].id - 1;
      assert shown[a].chunk.Key() != shown[b].chunk.Key();
    }
  }

  /** A response that cites was generated from a prompt that showed grounded chunks. */
  lemma CitingNeedsGround(cfg: ChatConfig, ctx: Context, request: ChatRequest, providers: Providers,
                          points: map<PointId, Point>, stages: Stages, response: ChatResponse) returns (content: string)
    requires providers.SearchIn(points) && response.citations != []
    requires IsOutcome(cfg, ctx, request, providers, stages, Ok(response))
    ensures Grounded(points, FilterOf(ctx, request), cfg.minRelevance, stages.shown)
    ensures CitesWhatIsCited(cfg.digits, content, stages.shown, response.citations)
  {
    ShownIsGrounded(cfg, ctx, request, providers, points, stages);
    var generated := providers.generate(UserPrompt(request.question, stages.shown)).value;
    CitationsOfAnswer(cfg.digits, generated, stages.shown, response);
    content := generated.content;
  }

  /** End to end: whatever the index, the providers and the model say, a response cites only permitted chunks, each once. */
  lemma AnswersAreGrounded(cfg: ChatConfig, ctx: Context, request: ChatRequest, granted: Option<seq<string>>,
                           providers: Providers, points: map<PointId, Point>, stages: Stages, response: ChatResponse)
    requires providers.SearchIn(points) && Keyed(points) && Grants(ctx.role, request.securityLevels, granted)
    requires IsOutcome(cfg, ctx, request.(securityLevels := granted), providers, stages, Ok(response))
    ensures forall i :: 0 <= i < |response.citations| ==>
      CitesPermitted(cfg, points, ctx, request, stages.shown, response.citations[i])
    ensures CitesDistinctChunks(response.citations)
  {
    if response.citations != [] {
      var content := CitingNeedsGround(cfg, ctx, request.(securityLevels := granted), providers, points, stages, response);
      CitationsArePermitted(cfg, ctx, request, granted, points, stages.shown, content, response.citations);
    }
  }

  lemma RefusalHasNoMarks(digits: DigitTable, id: nat)
    ensures !Cites(digits, NO_ANSWER, id)
  {
    assert forall i :: 0 <= i < |NO_ANSWER| ==> NO_ANSWER[i] != '[';
  }

  /** A response cites nothing exactly when its text is the fixed refusal, and it is then signed by the grounding policy. */
  lemma RefusalIsRecognizable(cfg: ChatConfig, ctx: Context, request: ChatRequest, providers: Providers,
                              stages: Stages, response: ChatResponse)
    requires IsOutcome(cfg, ctx, request, providers, stages, Ok(response))
    ensures response.citations == [] <==> response.answer == NO_ANSWER
    ensures response.citations == [] ==> response.model == NO_ANSWER_MODEL
  {
    if stages.retrieved != [] && stages.shown != [] {
      CitationsOfAnswer(cfg.digits, providers.generate(UserPrompt(request.question, stages.shown)).value, stages.shown, response);
      if response.citations != [] {
        RefusalHasNoMarks(cfg.digits, response.citations[0].id);
      }
    }
  }

  // ----- the service -----

  method Retrieve(mode: RetrievalMode, providers: Providers, ghost points: map<PointId, Point>, query: string,
                  filter: RetrievalFilter, limit: nat)
    returns (chunks: seq<RetrievedChunk>)
    requires providers.SearchIn(points)
    ensures IsRetrieval(mode, providers, query, filter, limit, chunks)
  {
    match mode
    case DenseOnly =>
      assert Returned(points, filter, limit, providers.search(filter, limit));
      chunks := providers.search(filter, limit);
    case Hybrid(hybrid) =>
      var n := Max(limit, hybrid.candidateLimit);
      var dense, listed := providers.search(filter, n), providers.list(filter, n);
      assert Returned(points, filter, n, dense) && Returned(points, filter, n, listed);
      chunks := HybridRetrieve(hybrid, query, dense, listed, limit);
  }

  method Rerank(backend: RerankerBackend, providers: Providers, query: string, chunks: seq<RetrievedChunk>, topK: nat)
    returns (r: Option<seq<RerankedChunk>>)
    ensures r.Some? ==> IsReranking(backend, providers, query, topK, chunks, r.value)
    ensures r.None? ==> forall x :: !IsReranking(backend, providers, query, topK, chunks, x)
  {
    match backend
    case ScorePreserving =>
      r := Some(PreserveScores(Head(chunks, topK)));
    case Bge =>
      var reply := providers.rerank(query, Texts(chunks), topK);
      if reply.Err? {
        return None;
      }
      var parsed := ParseRerankReply(reply.value, chunks, topK);
      r := if parsed.Ok? then Some(parsed.value) else None;
  }

  method BuildCitations(shown: seq<RerankedChunk>, ids: seq<nat>) returns (citations: seq<Citation>)
    requires forall i :: 0 <= i < |ids| ==> 1 <= ids[i] <= |shown|
    ensures AreCitations(shown, ids, citations)
  {
    citations := [];
    for i := 0 to |ids|
      invariant |citations| == i
      invariant forall j :: 0 <= j < i ==> citations[j] == CitationOf(ids[j], shown[ids[j] - 1])
    {
      citations := citations + [CitationOf(ids[i], shown[ids[i] - 1])];
    }
  }

  /** Turns the generated text into the response. */
  method Respond(digits: DigitTable, generated: Generated, shown: seq<RerankedChunk>) returns (response: ChatResponse)
    requires digits.Valid()
    ensures IsAnswer(digits, generated, shown, response)
  {
    var ids := ExtractCitationIds(digits, generated.content, |shown|);
    assert forall i :: 0 <= i < |ids| ==> ids[i] in ids;
    if ids == [] {
      return Refusal(|shown|, generated.usage);
    }
    assert 1 <= ids[0] <= |shown| && Cites(digits, generated.content, ids[0]);
    var citations := BuildCitations(shown, ids);
    response := ChatResponse(generated.content, generated.model, citations, generated.usage, |shown|);
  }

  class ChatService {
    const cfg: ChatConfig
    var auditLog: seq<AuditEvent>

    constructor (cfg: ChatConfig)
      ensures this.cfg == cfg && auditLog == []
    {
      this.cfg := cfg;
      auditLog := [];
    }

    /** Serves one question; a response is logged once, an error not at all. */
    method Answer(ctx: Context, request: ChatRequest, providers: Providers, ghost points: map<PointId, Point>)
      returns (r: Result<ChatResponse, ChatError>, ghost stages: Stages)
      requires cfg.Valid() && providers.SearchIn(points)
      modifies this
      ensures IsOutcome(cfg, ctx, request, providers, stages, r)
      ensures auditLog == old(auditLog) + if r.Ok? then [EventOf(cfg, ctx, request, r.value)] else []
      ensures r.Ok? ==> LogsOnce(old(auditLog), auditLog, cfg, ctx, request, r.value)
    {
      stages := Stages([], [], []);
      var topK := FinalTopK(cfg, request);
      if providers.embeddingFails {
        return Err(EmbeddingUnavailable), stages;
      }
      var chunks := Retrieve(cfg.retrieval, providers, points, request.question, FilterOf(ctx, request), RetrievalLimit(cfg, request));
      stages := Stages(chunks, [], []);
      if chunks == [] {
        var refusal := Refusal(0, NO_USAGE);
        RecordAuditEvent(ctx, request, refusal);
        return Ok(refusal), stages;
      }
      var reranked := Rerank(cfg.reranker, providers, request.question, chunks, topK);
      if reranked.None? {
        return Err(RerankerUnavailable), stages;
      }
      var shown := Supported(reranked.value, cfg.minRelevance);
      stages := Stages(chunks, reranked.value, shown);
      if shown == [] {
        var refusal := Refusal(0, NO_USAGE);
        RecordAuditEvent(ctx, request, refusal);
        return Ok(refusal), stages;
      }
      var generated := providers.generate(UserPrompt(request.question, shown));
      if generated.Err? {
        return Err(GenerationUnavailable), stages;
      }
      var response := Respond(cfg.digits, generated.value, shown);
      RecordAuditEvent(ctx, request, response);
      return Ok(response), stages;
    }

    method RecordAuditEvent(ctx: Context, request: ChatRequest, response: ChatResponse)
      modifies this
      ensures auditLog == old(auditLog) + [EventOf(cfg, ctx, request, response)]
      ensures LogsOnce(old(auditLog), auditLog, cfg, ctx, request, response)
    {
      auditLog := auditLog + [EventOf(cfg, ctx, request, response)];
    }

    /**
     The endpoint: restricts the request to the levels of the caller's role, and answers it.  Every
     citation of the response is permitted, and the audit log gets the same citations.
     */
    method AnswerQuestion(ctx: Context, request: ChatRequest, providers: Providers, ghost points: map<PointId, Point>)
      returns (r: Result<ChatResponse, ChatError>, ghost stages: Stages)
      requires cfg.Valid() && providers.SearchIn(points) && Keyed(points)
      modifies this
      ensures r.Ok? ==> forall i :: 0 <= i < |r.value.citations| ==>
        CitesPermitted(cfg, points, ctx, request, stages.shown, r.value.citations[i])
      ensures r.Ok? ==> CitesDistinctChunks(r.value.citations)
      ensures r.Ok? ==> (r.value.citations == [] <==> r.value.answer == NO_ANSWER)
      ensures auditLog == old(auditLog) + if r.Ok? then [EventOf(cfg, ctx, request, r.value)] else []
      ensures r.Ok? ==> LogsOnce(old(auditLog), auditLog, cfg, ctx, request, r.value)
      ensures (exists e :: r == Err(LevelsRefused(e))) <==>
        request.securityLevels.Some?
        && exists i :: 0 <= i < |request.securityLevels.value| && LevelError(ctx.role, request.securityLevels.value[i]).Some?
    {
      stages := Stages([], [], []);
      var levels := FilterLevelsForRole(ctx.role, request.securityLevels);
      if levels.Err? {
        return Err(LevelsRefused(levels.error)), stages;
      }
      var validated := request.(securityLevels := levels.value);
      GrantedLevels(ctx.role, request.securityLevels, levels.value);
      r, stages := Answer(ctx, validated, providers, points);
      if r.Ok? {
        AnswersAreGrounded(cfg, ctx, request, levels.value, providers, points, stages, r.value);
        RefusalIsRecognizable(cfg, ctx, validated, providers, stages, r.value);
      }
    }
  }
}
