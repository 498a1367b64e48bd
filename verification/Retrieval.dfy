/** Searching the chunk index, and the hybrid ranking of what the searches return. */
module Retrieval {
  import opened Documents
  import opened Filters
  import opened Sequences
  import opened Wrappers

  datatype RetrievedChunk = RetrievedChunk(
    workspaceId: string, documentId: string, filename: string, parser: string, securityLevel: string,
    chunkIndex: nat, chunkText: string, score: real) {

    function Key(): PointId {
      PointId(documentId, chunkIndex)
    }
  }

  function ToChunk(p: Point, score: real): RetrievedChunk {
    RetrievedChunk(p.workspaceId, p.documentId, p.filename, p.parser, p.securityLevel, p.chunkIndex, p.chunkText, score)
  }

  predicate UniqueKeys(chunks: seq<RetrievedChunk>) {
    forall i, j :: 0 <= i < j < |chunks| ==> chunks[i].Key() != chunks[j].Key()
  }

  // ----- the order of results -----

  /** Python's order on strings. */
  predicate StrLess(a: string, b: string) {
    b != "" && (a == "" || a[0] < b[0] || (a[0] == b[0] && StrLess(a[1..], b[1..])))
  }

  lemma {:induction false} StrTotal(a: string, b: string)
    ensures StrLess(a, b) || a == b || StrLess(b, a)
    ensures !(StrLess(a, b) && StrLess(b, a)) && !(StrLess(a, b) && a == b)
  {
    if a != "" && b != "" && a[0] == b[0] {
      StrTotal(a[1..], b[1..]);
      assert a == [a[0]] + a[1..] && b == [b[0]] + b[1..];
    }
  }

  lemma {:induction false} StrTransitive(a: string, b: string, c: string)
    requires StrLess(a, b) && StrLess(b, c)
    ensures StrLess(a, c)
  {
    if a != "" && a[0] == b[0] == c[0] {
      StrTransitive(a[1..], b[1..], c[1..]);
    }
  }

  /** `sort(key=lambda c: (-c.score, c.filename, c.chunk_index, c.document_id))`. */
  predicate Before(a: RetrievedChunk, b: RetrievedChunk) {
    || a.score > b.score
    || (a.score == b.score
        && (|| StrLess(a.filename, b.filename)
            || (a.filename == b.filename
                && (a.chunkIndex < b.chunkIndex
                    || (a.chunkIndex == b.chunkIndex && StrLess(a.documentId, b.documentId))))))
  }

  lemma BeforeTotal(a: RetrievedChunk, b: RetrievedChunk)
    ensures Before(a, b) || Before(b, a) || a.Key() == b.Key()
    ensures !(Before(a, b) && Before(b, a)) && !Before(a, a)
  {
    StrTotal(a.filename, b.filename);
    StrTotal(a.documentId, b.documentId);
    StrTotal(a.filename, a.filename);
    StrTotal(a.documentId, a.documentId);
  }

  lemma BeforeTransitive(a: RetrievedChunk, b: RetrievedChunk, c: RetrievedChunk)
    requires Before(a, b) && Before(b, c)
    ensures Before(a, c)
  {
    if StrLess(a.filename, b.filename) && StrLess(b.filename, c.filename) {
      StrTransitive(a.filename, b.filename, c.filename);
    }
    if StrLess(a.documentId, b.documentId) && StrLess(b.documentId, c.documentId) {
      StrTransitive(a.documentId, b.documentId, c.documentId);
    }
  }

  predicate StrictlySorted(chunks: seq<RetrievedChunk>) {
    forall i, j :: 0 <= i < j < |chunks| ==> Before(chunks[i], chunks[j])
  }

  /** The strictly sorted arrangement of exactly the chunks of a set. */
  ghost predicate IsRanking(ranked: seq<RetrievedChunk>, chunks: set<RetrievedChunk>) {
    StrictlySorted(ranked) && forall c :: c in ranked <==> c in chunks
  }

  /** A set has at most one ranking. */
  lemma {:induction false} RankingIsUnique(a: seq<RetrievedChunk>, b: seq<RetrievedChunk>, chunks: set<RetrievedChunk>)
    requires IsRanking(a, chunks) && IsRanking(b, chunks)
    ensures a == b
  {
    assert b != [] ==> b[0] in b;
    if a != [] {
      assert a[0] in a;
      var i :| 0 <= i < |b| && b[i] == a[0];
      assert b[0] in a;
      var j :| 0 <= j < |a| && a[j] == b[0];
      BeforeTotal(a[0], b[0]);
      assert a[0] == b[0];
      TailRanking(a, chunks);
      TailRanking(b, chunks);
      RankingIsUnique(a[1..], b[1..], chunks - {a[0]});
    }
  }

  lemma TailRanking(a: seq<RetrievedChunk>, chunks: set<RetrievedChunk>)
    requires IsRanking(a, chunks) && a != []
    ensures IsRanking(a[1..], chunks - {a[0]})
  {
    forall c
      ensures c in a[1..] <==> c in chunks - {a[0]}
    {
      if c in a[1..] {
        var i :| 0 <= i < |a[1..]| && a[1..][i] == c;
        BeforeTotal(a[0], c);
        assert a[i + 1] == c && Before(a[0], a[i + 1]);
      }
      if c in chunks - {a[0]} {
        assert c in a;
        var i :| 0 <= i < |a| && a[i] == c;
        assert a[1..][i - 1] == c;
      }
    }
  }

  // ----- sorting -----

  function Insert(c: RetrievedChunk, sorted: seq<RetrievedChunk>): seq<RetrievedChunk> {
    if sorted == [] || Before(c, sorted[0]) then [c] + sorted else [sorted[0]] + Insert(c, sorted[1..])
  }

  function Sort(chunks: seq<RetrievedChunk>): seq<RetrievedChunk> {
    if chunks == [] then [] else Insert(chunks[0], Sort(chunks[1..]))
  }

  lemma {:induction false} InsertMembers(c: RetrievedChunk, sorted: seq<RetrievedChunk>)
    ensures forall x :: x in Insert(c, sorted) <==> x == c || x in sorted
  {
    if sorted != [] && !Before(c, sorted[0]) {
      InsertMembers(c, sorted[1..]);
      assert forall x :: x in sorted <==> x == sorted[0] || x in sorted[1..];
    }
  }

  lemma {:induction false} InsertSorts(c: RetrievedChunk, sorted: seq<RetrievedChunk>)
    requires StrictlySorted(sorted) && forall x :: x in sorted ==> x.Key() != c.Key()
    ensures StrictlySorted(Insert(c, sorted))
  {
    if sorted != [] {
      BeforeTotal(c, sorted[0]);
      if Before(c, sorted[0]) {
        forall i | 1 <= i < |sorted|
          ensures Before(c, sorted[i])
        {
          BeforeTransitive(c, sorted[0], sorted[i]);
        }
      } else {
        var rest := Insert(c, sorted[1..]);
        InsertSorts(c, sorted[1..]);
        InsertMembers(c, sorted[1..]);
        forall i | 0 <= i < |rest|
          ensures Before(sorted[0], rest[i])
        {
          assert rest[i] in rest;
          if rest[i] != c {
            var k :| 0 <= k < |sorted[1..]| && sorted[1..][k] == rest[i];
            assert sorted[k + 1] == rest[i];
          } else {
            assert sorted[0] in sorted;
          }
        }
      }
    }
  }

  /** Sorting chunks with distinct keys gives the ranking of their set. */
  lemma {:induction false} SortRanks(chunks: seq<RetrievedChunk>)
    requires UniqueKeys(chunks)
    ensures IsRanking(Sort(chunks), set c | c in chunks)
  {
    if chunks != [] {
      SortRanks(chunks[1..]);
      var sorted := Sort(chunks[1..]);
      forall x | x in sorted
        ensures x.Key() != chunks[0].Key()
      {
        assert x in chunks[1..];
        var i :| 0 <= i < |chunks[1..]| && chunks[1..][i] == x;
        assert chunks[i + 1] == x;
      }
      InsertSorts(chunks[0], sorted);
      InsertMembers(chunks[0], sorted);
      assert forall x :: x in chunks <==> x == chunks[0] || x in chunks[1..];
    }
  }

  // ----- what the store may return -----

  /** The points that a filter lets through. */
  function MatchingIds(points: map<PointId, Point>, filter: RetrievalFilter): set<PointId> {
    set id | id in points && Matches(BuildQdrantFilter(filter), points[id])
  }

  /** Every point is stored under its own document id and chunk index. */
  ghost predicate Keyed(points: map<PointId, Point>) {
    forall id :: id in points ==> points[id].documentId == id.documentId && points[id].chunkIndex == id.index
  }

  /**
   The contract of `search` and `list_chunks`: distinct matching points, in any order, and all of
   them if there are no more than the limit.
   */
  ghost predicate Returned(points: map<PointId, Point>, filter: RetrievalFilter, limit: nat, chunks: seq<RetrievedChunk>) {
    && |chunks| <= limit
    && UniqueKeys(chunks)
    && (forall i :: 0 <= i < |chunks| ==>
         chunks[i].Key() in MatchingIds(points, filter) && chunks[i] == ToChunk(points[chunks[i].Key()], chunks[i].score))
    && (|MatchingIds(points, filter)| <= limit ==>
         forall id :: id in MatchingIds(points, filter) ==> exists i :: 0 <= i < |chunks| && chunks[i].Key() == id)
  }

  // ----- hybrid retrieval -----

  /** Weights and candidate limit, with the tokenizer and the rounding to six digits that scoring uses. */
  datatype HybridConfig = HybridConfig(
    denseWeight: real, lexicalWeight: real, candidateLimit: nat, tokenize: string -> set<string>, round6: real -> real)

  /** The share of the query's terms that occur in the chunk. */
  function LexicalScore(queryTerms: set<string>, chunkTerms: set<string>): (r: real)
    ensures 0.0 <= r <= 1.0
    ensures r * |queryTerms| as real == |queryTerms * chunkTerms| as real
    ensures r == 0.0 <==> queryTerms !! chunkTerms
    ensures r == 1.0 <==> queryTerms != {} && queryTerms <= chunkTerms
  {
    var common := queryTerms * chunkTerms;
    SubsetSize(common, queryTerms);
    CommonTerms(queryTerms, chunkTerms);
    if queryTerms == {} || chunkTerms == {} then 0.0
    else
      ShareFacts(|common|, |queryTerms|);
      |common| as real / |queryTerms| as real
  }

  lemma CommonTerms(a: set<string>, b: set<string>)
    ensures a !! b <==> a * b == {}
    ensures a <= b <==> a * b == a
  {
    if a * b == {} {
      forall x | x in a
        ensures x !in b
      {
        assert x !in a * b;
      }
    }
    if a * b == a {
      forall x | x in a
        ensures x in b
      {
        assert x in a * b;
      }
    }
  }

  lemma ShareFacts(part: nat, whole: nat)
    requires part <= whole && whole > 0
    ensures var r := part as real / whole as real;
      && 0.0 <= r <= 1.0 && r * whole as real == part as real
      && (r == 0.0 <==> part == 0) && (r == 1.0 <==> part == whole)
  {
  }

  /** `{_chunk_key(chunk): chunk.score for chunk in dense_chunks}`. */
  function DenseScores(dense: seq<RetrievedChunk>): map<PointId, real>
    decreases |dense|
  {
    if dense == [] then map[]
    else DenseScores(dense[..|dense| - 1])[dense[|dense| - 1].Key() := dense[|dense| - 1].score]
  }

  function Scaled(score: real, weight: real): (r: real)
    ensures r == score * weight
  {
    score * weight
  }

  /** The blended score of a chunk with the given dense score. */
  function Blend(cfg: HybridConfig, query: string, dense: real, text: string): real {
    var lexical := LexicalScore(cfg.tokenize(query), cfg.tokenize(text));
    cfg.round6(Scaled(dense, cfg.denseWeight) + Scaled(lexical, cfg.lexicalWeight))
  }

  function Rescore(cfg: HybridConfig, query: string, scores: map<PointId, real>, c: RetrievedChunk): RetrievedChunk {
    c.(score := Blend(cfg, query, if c.Key() in scores then scores[c.Key()] else 0.0, c.chunkText))
  }

  function RescoreAll(cfg: HybridConfig, query: string, scores: map<PointId, real>, chunks: seq<RetrievedChunk>)
    : (r: seq<RetrievedChunk>)
    ensures |r| == |chunks|
    ensures forall i :: 0 <= i < |chunks| ==> r[i] == Rescore(cfg, query, scores, chunks[i])
  {
    if chunks == [] then []
    else [Rescore(cfg, query, scores, chunks[0])] + RescoreAll(cfg, query, scores, chunks[1..])
  }

  predicate HasKey(chunks: seq<RetrievedChunk>, key: PointId) {
    exists i :: 0 <= i < |chunks| && chunks[i].Key() == key
  }

  /** The chunks that `setdefault` keeps: the first one under each key. */
  ghost predicate FirstsOf(chunks: seq<RetrievedChunk>, firsts: seq<RetrievedChunk>) {
    && UniqueKeys(firsts)
    && (forall i :: 0 <= i < |firsts| ==> IsFirstUpTo(chunks, |chunks|, firsts[i]))
    && (forall k :: 0 <= k < |chunks| ==> HasKey(firsts, chunks[k].Key()))
  }

  ghost predicate IsFirst(chunks: seq<RetrievedChunk>, k: nat, c: RetrievedChunk) {
    && k < |chunks| && chunks[k] == c
    && forall j :: 0 <= j < k ==> chunks[j].Key() != c.Key()
  }

  ghost predicate IsFirstUpTo(chunks: seq<RetrievedChunk>, n: nat, c: RetrievedChunk) {
    exists k: nat :: k < n && IsFirst(chunks, k, c)
  }

  /** The set that hybrid retrieval ranks: dense results, and listed chunks that are not among them, rescored. */
  ghost function Candidates(cfg: HybridConfig, query: string, dense: seq<RetrievedChunk>, listed: seq<RetrievedChunk>)
    : set<RetrievedChunk>
  {
    var scores := DenseScores(dense);
    (set c | c in dense :: Rescore(cfg, query, scores, c))
    + (set c | c in listed && !HasKey(dense, c.Key()) :: Rescore(cfg, query, scores, c))
  }

  method Deduplicate(chunks: seq<RetrievedChunk>) returns (firsts: seq<RetrievedChunk>)
    ensures FirstsOf(chunks, firsts)
  {
    var candidates: map<PointId, RetrievedChunk> := map[];
    firsts := [];
    for n := 0 to |chunks|
      invariant UniqueKeys(firsts)
      invariant forall key :: key in candidates <==> HasKey(firsts, key)
      invariant forall i :: 0 <= i < |firsts| ==> IsFirstUpTo(chunks, n, firsts[i])
      invariant forall k :: 0 <= k < n ==> HasKey(firsts, chunks[k].Key())
    {
      var c := chunks[n];
      if c.Key() !in candidates {
        assert IsFirst(chunks, n, c);
        KeysAppend(firsts, c);
        candidates := candidates[c.Key() := c];
        firsts := firsts + [c];
      }
    }
  }

  lemma KeysAppend(firsts: seq<RetrievedChunk>, c: RetrievedChunk)
    ensures forall key :: HasKey(firsts + [c], key) <==> HasKey(firsts, key) || key == c.Key()
  {
    assert (firsts + [c])[|firsts|] == c;
    forall key | HasKey(firsts, key)
      ensures HasKey(firsts + [c], key)
    {
      var i :| 0 <= i < |firsts| && firsts[i].Key() == key;
      assert (firsts + [c])[i] == firsts[i];
    }
  }

  // ----- the candidates as a set -----

  lemma {:induction false} DenseScoresFacts(dense: seq<RetrievedChunk>)
    requires UniqueKeys(dense)
    ensures forall key :: key in DenseScores(dense) <==> HasKey(dense, key)
    ensures forall i :: 0 <= i < |dense| ==> dense[i].Key() in DenseScores(dense) && DenseScores(dense)[dense[i].Key()] == dense[i].score
    decreases |dense|
  {
    if dense != [] {
      var before, last := dense[..|dense| - 1], dense[|dense| - 1];
      DenseScoresFacts(before);
      KeysAppend(before, last);
      assert dense == before + [last];
    }
  }

  lemma UniqueIndex(chunks: seq<RetrievedChunk>, i: nat, j: nat)
    requires UniqueKeys(chunks) && i < |chunks| && j < |chunks| && chunks[i].Key() == chunks[j].Key()
    ensures i == j
  {
  }

  /** Where the first chunk under a key comes from. */
  lemma FirstOrigin(dense: seq<RetrievedChunk>, listed: seq<RetrievedChunk>, c: RetrievedChunk, k: nat)
    requires IsFirst(dense + listed, k, c)
    ensures c in dense || (c in listed && !HasKey(dense, c.Key()))
  {
    if k < |dense| {
      assert dense[k] == c;
    } else {
      assert listed[k - |dense|] == c;
      assert forall j :: 0 <= j < |dense| ==> (dense + listed)[j] == dense[j];
    }
  }

  /** A dense chunk, and a listed chunk whose key is not among the dense ones, are the first under their keys. */
  lemma IsCandidate(dense: seq<RetrievedChunk>, listed: seq<RetrievedChunk>, firsts: seq<RetrievedChunk>, c: RetrievedChunk)
    requires UniqueKeys(dense) && UniqueKeys(listed) && FirstsOf(dense + listed, firsts)
    requires c in dense || (c in listed && !HasKey(dense, c.Key()))
    ensures c in firsts
  {
    var all := dense + listed;
    var n: nat;
    if c in dense {
      n :| 0 <= n < |dense| && dense[n] == c;
      assert all[n] == c;
    } else {
      var m :| 0 <= m < |listed| && listed[m] == c;
      n := |dense| + m;
      assert all[n] == c;
    }
    assert HasKey(firsts, all[n].Key());
    var i :| 0 <= i < |firsts| && firsts[i].Key() == c.Key();
    var k: nat :| k < |all| && IsFirst(all, k, firsts[i]);
    assert k <= n;
    assert forall j :: 0 <= j < |dense| ==> all[j] == dense[j] && HasKey(dense, all[j].Key());
    if c in dense {
      UniqueIndex(dense, k, n);
    } else {
      UniqueIndex(listed, k - |dense|, n - |dense|);
    }
  }

  lemma ScoredIsCandidate(cfg: HybridConfig, query: string, dense: seq<RetrievedChunk>, listed: seq<RetrievedChunk>,
                          firsts: seq<RetrievedChunk>, i: nat)
    requires FirstsOf(dense + listed, firsts) && i < |firsts|
    ensures Rescore(cfg, query, DenseScores(dense), firsts[i]) in Candidates(cfg, query, dense, listed)
  {
    assert IsFirstUpTo(dense + listed, |dense + listed|, firsts[i]);
    var k: nat :| k < |dense + listed| && IsFirst(dense + listed, k, firsts[i]);
    FirstOrigin(dense, listed, firsts[i], k);
  }

  lemma CandidateIsScored(cfg: HybridConfig, query: string, dense: seq<RetrievedChunk>, listed: seq<RetrievedChunk>,
                          firsts: seq<RetrievedChunk>, x: RetrievedChunk)
    requires UniqueKeys(dense) && UniqueKeys(listed) && FirstsOf(dense + listed, firsts)
    requires x in Candidates(cfg, query, dense, listed)
    ensures x in RescoreAll(cfg, query, DenseScores(dense), firsts)
  {
    var scores := DenseScores(dense);
    var c :| (c in dense || (c in listed && !HasKey(dense, c.Key()))) && x == Rescore(cfg, query, scores, c);
    IsCandidate(dense, listed, firsts, c);
    var i :| 0 <= i < |firsts| && firsts[i] == c;
    assert RescoreAll(cfg, query, scores, firsts)[i] == x;
  }

  lemma CandidatesAreScored(cfg: HybridConfig, query: string, dense: seq<RetrievedChunk>, listed: seq<RetrievedChunk>,
                            firsts: seq<RetrievedChunk>)
    requires UniqueKeys(dense) && UniqueKeys(listed) && FirstsOf(dense + listed, firsts)
    ensures var scored := RescoreAll(cfg, query, DenseScores(dense), firsts);
      UniqueKeys(scored) && (set c | c in scored) == Candidates(cfg, query, dense, listed)
  {
    var scored := RescoreAll(cfg, query, DenseScores(dense), firsts);
    forall x | x in scored
      ensures x in Candidates(cfg, query, dense, listed)
    {
      var i :| 0 <= i < |scored| && scored[i] == x;
      ScoredIsCandidate(cfg, query, dense, listed, firsts, i);
    }
    forall x | x in Candidates(cfg, query, dense, listed)
      ensures x in scored
    {
      CandidateIsScored(cfg, query, dense, listed, firsts, x);
    }
  }

  lemma CandidateKeysDiffer(cfg: HybridConfig, query: string, dense: seq<RetrievedChunk>, listed: seq<RetrievedChunk>,
                            x: RetrievedChunk, y: RetrievedChunk)
    requires UniqueKeys(dense) && UniqueKeys(listed) && x.Key() == y.Key()
    requires x in Candidates(cfg, query, dense, listed) && y in Candidates(cfg, query, dense, listed)
    ensures x == y
  {
    var scores := DenseScores(dense);
    var c :| (c in dense || (c in listed && !HasKey(dense, c.Key()))) && x == Rescore(cfg, query, scores, c);
    var d :| (d in dense || (d in listed && !HasKey(dense, d.Key()))) && y == Rescore(cfg, query, scores, d);
    if c in dense {
      var i :| 0 <= i < |dense| && dense[i] == c;
    }
    if d in dense {
      var j :| 0 <= j < |dense| && dense[j] == d;
    }
    assert c.Key() == d.Key();
    assert c in dense <==> d in dense;
  }

  /** A ranking of candidates holds no two chunks with the same key. */
  lemma RankedCandidatesAreDistinct(cfg: HybridConfig, query: string, dense: seq<RetrievedChunk>, listed: seq<RetrievedChunk>,
                                    ranking: seq<RetrievedChunk>)
    requires UniqueKeys(dense) && UniqueKeys(listed) && IsRanking(ranking, Candidates(cfg, query, dense, listed))
    ensures UniqueKeys(ranking)
  {
    forall i, j | 0 <= i < j < |ranking|
      ensures ranking[i].Key() != ranking[j].Key()
    {
      assert ranking[i] in ranking && ranking[j] in ranking;
      BeforeTotal(ranking[i], ranking[j]);
      if ranking[i].Key() == ranking[j].Key() {
        CandidateKeysDiffer(cfg, query, dense, listed, ranking[i], ranking[j]);
      }
    }
  }

  // ----- the result, chunk by chunk -----

  /** Python's `a < b` on strings: at the first difference the smaller code point, or the shorter one. */
  ghost predicate Precedes(a: string, b: string) {
    exists k: nat :: k < |b| && k <= |a| && a[..k] == b[..k] && (k == |a| || a[k] < b[k])
  }

  lemma SameStart(a: string, b: string, k: nat)
    requires 0 < k <= |a| && k <= |b| && a[..k] == b[..k]
    ensures a[0] == b[0]
  {
    assert a[..k][0] == a[0] && b[..k][0] == b[0];
  }

  lemma {:induction false} StrLessMeaning(a: string, b: string)
    ensures StrLess(a, b) <==> Precedes(a, b)
  {
    if a != "" && b != "" && a[0] == b[0] {
      StrLessMeaning(a[1..], b[1..]);
      if Precedes(a[1..], b[1..]) {
        var k: nat :| k < |b[1..]| && k <= |a[1..]| && a[1..][..k] == b[1..][..k] && (k == |a[1..]| || a[1..][k] < b[1..][k]);
        assert a[..k + 1] == [a[0]] + a[1..][..k] && b[..k + 1] == [b[0]] + b[1..][..k];
      }
      if Precedes(a, b) {
        var k: nat :| k < |b| && k <= |a| && a[..k] == b[..k] && (k == |a| || a[k] < b[k]);
        assert a[1..][..k - 1] == a[..k][1..] && b[1..][..k - 1] == b[..k][1..];
      }
    } else if b != "" {
      assert a[..0] == b[..0];
      if Precedes(a, b) {
        var k: nat :| k < |b| && k <= |a| && a[..k] == b[..k] && (k == |a| || a[k] < b[k]);
        if k > 0 {
          SameStart(a, b, k);
        }
      }
    }
  }

  /** Higher scores first; equal scores by filename, chunk index and document id. */
  ghost predicate BestFirst(chunks: seq<RetrievedChunk>) {
    forall i, j :: 0 <= i < j < |chunks| ==>
      var a, b := chunks[i], chunks[j];
      && a.score >= b.score
      && (a.score == b.score ==>
           || Precedes(a.filename, b.filename)
           || (a.filename == b.filename && a.chunkIndex < b.chunkIndex)
           || (a.filename == b.filename && a.chunkIndex == b.chunkIndex && Precedes(a.documentId, b.documentId)))
  }

  /** The result takes from the candidates, takes all of them if they fit, and otherwise leaves out none with a higher score. */
  ghost predicate BestOf(result: seq<RetrievedChunk>, candidates: set<RetrievedChunk>, limit: nat) {
    && |result| <= limit
    && (forall c :: c in result ==> c in candidates)
    && (forall c :: c in candidates && c !in result ==>
         |result| == limit && forall i :: 0 <= i < |result| ==> result[i].score >= c.score)
  }

  lemma RankingIsBestFirst(ranking: seq<RetrievedChunk>, candidates: set<RetrievedChunk>, limit: nat)
    requires IsRanking(ranking, candidates)
    ensures BestFirst(Head(ranking, limit)) && BestOf(Head(ranking, limit), candidates, limit)
  {
    var result := Head(ranking, limit);
    forall i, j | 0 <= i < j < |result|
      ensures Before(result[i], result[j])
      ensures StrLess(result[i].filename, result[j].filename) <==> Precedes(result[i].filename, result[j].filename)
      ensures StrLess(result[i].documentId, result[j].documentId) <==> Precedes(result[i].documentId, result[j].documentId)
    {
      StrLessMeaning(result[i].filename, result[j].filename);
      StrLessMeaning(result[i].documentId, result[j].documentId);
    }
    assert forall i :: 0 <= i < |result| ==> ranking[i] == result[i] && ranking[i] in result;
    forall c | c in candidates && c !in result
      ensures |result| == limit && forall i :: 0 <= i < |result| ==> result[i].score >= c.score
    {
      assert c in ranking;
      var k :| 0 <= k < |ranking| && ranking[k] == c;
    }
  }

  /** The score of the dense result under this key, or zero. */
  ghost predicate IsDenseScore(dense: seq<RetrievedChunk>, key: PointId, score: real) {
    || (exists i :: 0 <= i < |dense| && dense[i].Key() == key && dense[i].score == score)
    || (score == 0.0 && forall i :: 0 <= i < |dense| ==> dense[i].Key() != key)
  }

  /**
   A chunk of one of the lists, and its score is the weighted sum of its dense score and of the
   share of the query's terms in its text, rounded.
   */
  ghost predicate IsBlended(cfg: HybridConfig, query: string, dense: seq<RetrievedChunk>, listed: seq<RetrievedChunk>, x: RetrievedChunk) {
    && (exists c :: (c in dense || c in listed) && c.(score := x.score) == x)
    && HasBlendedScore(cfg, query, dense, x)
  }

  ghost predicate HasBlendedScore(cfg: HybridConfig, query: string, dense: seq<RetrievedChunk>, x: RetrievedChunk) {
    exists denseScore :: IsDenseScore(dense, x.Key(), denseScore) && IsWeightedSum(cfg, query, x.chunkText, denseScore, x.score)
  }

  ghost predicate IsWeightedSum(cfg: HybridConfig, query: string, text: string, denseScore: real, score: real) {
    var share := LexicalScore(cfg.tokenize(query), cfg.tokenize(text));
    score == cfg.round6(Scaled(denseScore, cfg.denseWeight) + Scaled(share, cfg.lexicalWeight))
  }

  lemma CandidateIsBlended(cfg: HybridConfig, query: string, dense: seq<RetrievedChunk>, listed: seq<RetrievedChunk>, x: RetrievedChunk)
    requires UniqueKeys(dense) && x in Candidates(cfg, query, dense, listed)
    ensures IsBlended(cfg, query, dense, listed, x)
  {
    var scores := DenseScores(dense);
    DenseScoresFacts(dense);
    var c :| (c in dense || (c in listed && !HasKey(dense, c.Key()))) && x == Rescore(cfg, query, scores, c);
    assert c.(score := x.score) == x;
    var denseScore := if c.Key() in scores then scores[c.Key()] else 0.0;
    assert IsDenseScore(dense, x.Key(), denseScore) by {
      if HasKey(dense, c.Key()) {
        var i :| 0 <= i < |dense| && dense[i].Key() == c.Key();
        assert dense[i].score == denseScore;
      }
    }
    BlendMeaning(cfg, query, dense, x, denseScore);
  }

  lemma BlendMeaning(cfg: HybridConfig, query: string, dense: seq<RetrievedChunk>, x: RetrievedChunk, denseScore: real)
    requires IsDenseScore(dense, x.Key(), denseScore) && x.score == Blend(cfg, query, denseScore, x.chunkText)
    ensures HasBlendedScore(cfg, query, dense, x)
  {
    assert IsWeightedSum(cfg, query, x.chunkText, denseScore, x.score);
  }

  /** The first `limit` chunks of the ranking of a set. */
  ghost predicate IsHeadOfRanking(result: seq<RetrievedChunk>, chunks: set<RetrievedChunk>, limit: nat) {
    exists ranking :: IsRanking(ranking, chunks) && result == Head(ranking, limit)
  }

  /**
   Hybrid retrieval, with the two lists that the store returned.  The result is the first `limit`
   of the one ranking of the candidates.
   */
  method HybridRetrieve(cfg: HybridConfig, query: string, dense: seq<RetrievedChunk>, listed: seq<RetrievedChunk>, limit: nat)
    returns (result: seq<RetrievedChunk>)
    requires UniqueKeys(dense) && UniqueKeys(listed)
    ensures IsHeadOfRanking(result, Candidates(cfg, query, dense, listed), limit)
    ensures BestFirst(result) && BestOf(result, Candidates(cfg, query, dense, listed), limit)
    ensures forall i :: 0 <= i < |result| ==> IsBlended(cfg, query, dense, listed, result[i])
  {
    var denseScores := DenseScores(dense);
    var candidates := Deduplicate(dense + listed);
    var scored := RescoreAll(cfg, query, denseScores, candidates);
    CandidatesAreScored(cfg, query, dense, listed, candidates);
    SortRanks(scored);
    scored := Sort(scored);
    result := Head(scored, limit);
    RankingIsBestFirst(scored, Candidates(cfg, query, dense, listed), limit);
    forall i | 0 <= i < |result|
      ensures IsBlended(cfg, query, dense, listed, result[i])
    {
      assert scored[i] in scored;
      CandidateIsBlended(cfg, query, dense, listed, result[i]);
    }
  }

  // ----- canonical ranking -----

  ghost predicate SameMembers(a: seq<RetrievedChunk>, b: seq<RetrievedChunk>) {
    forall c :: c in a <==> c in b
  }

  lemma SameKeys(a: seq<RetrievedChunk>, b: seq<RetrievedChunk>, key: PointId)
    requires SameMembers(a, b) && HasKey(a, key)
    ensures HasKey(b, key)
  {
    var i :| 0 <= i < |a| && a[i].Key() == key;
    assert a[i] in b;
  }

  lemma SameDenseScores(a: seq<RetrievedChunk>, b: seq<RetrievedChunk>)
    requires UniqueKeys(a) && UniqueKeys(b) && SameMembers(a, b)
    ensures DenseScores(a) == DenseScores(b)
  {
    DenseScoresFacts(a);
    DenseScoresFacts(b);
    forall key
      ensures key in DenseScores(a) <==> key in DenseScores(b)
      ensures key in DenseScores(a) ==> DenseScores(a)[key] == DenseScores(b)[key]
    {
      if HasKey(a, key) {
        var i :| 0 <= i < |a| && a[i].Key() == key;
        assert a[i] in b;
        var j :| 0 <= j < |b| && b[j] == a[i];
      }
      if HasKey(b, key) {
        SameKeys(b, a, key);
      }
    }
  }

  /** The result does not depend on the order in which the store returned either list. */
  lemma RankingIsCanonical(cfg: HybridConfig, query: string, limit: nat,
                           dense: seq<RetrievedChunk>, listed: seq<RetrievedChunk>,
                           dense': seq<RetrievedChunk>, listed': seq<RetrievedChunk>,
                           result: seq<RetrievedChunk>, result': seq<RetrievedChunk>)
    requires UniqueKeys(dense) && UniqueKeys(dense') && SameMembers(dense, dense') && SameMembers(listed, listed')
    requires IsHeadOfRanking(result, Candidates(cfg, query, dense, listed), limit)
    requires IsHeadOfRanking(result', Candidates(cfg, query, dense', listed'), limit)
    ensures result == result'
  {
    SameDenseScores(dense, dense');
    forall key
      ensures HasKey(dense, key) <==> HasKey(dense', key)
    {
      if HasKey(dense, key) {
        SameKeys(dense, dense', key);
      }
      if HasKey(dense', key) {
        SameKeys(dense', dense, key);
      }
    }
    var candidates := Candidates(cfg, query, dense, listed);
    assert Candidates(cfg, query, dense', listed') == candidates;
    var ranking :| IsRanking(ranking, candidates) && result == Head(ranking, limit);
    var ranking' :| IsRanking(ranking', candidates) && result' == Head(ranking', limit);
    RankingIsUnique(ranking, ranking', candidates);
  }

  /** Every matching chunk, scored directly. */
  ghost function BruteForce(cfg: HybridConfig, query: string, points: map<PointId, Point>, filter: RetrievalFilter,
                            cosine: PointId -> real): set<RetrievedChunk>
  {
    set id | id in MatchingIds(points, filter) :: ToChunk(points[id], Blend(cfg, query, cosine(id), points[id].chunkText))
  }

  lemma ReturnedChunk(points: map<PointId, Point>, filter: RetrievalFilter, limit: nat, chunks: seq<RetrievedChunk>, c: RetrievedChunk)
    requires Returned(points, filter, limit, chunks) && c in chunks
    ensures c.Key() in MatchingIds(points, filter) && c == ToChunk(points[c.Key()], c.score)
  {
  }

  lemma CandidateIsBruteForce(cfg: HybridConfig, query: string, points: map<PointId, Point>, filter: RetrievalFilter,
                              cosine: PointId -> real, limit: nat, dense: seq<RetrievedChunk>, listed: seq<RetrievedChunk>,
                              x: RetrievedChunk)
    requires |MatchingIds(points, filter)| <= limit
    requires Returned(points, filter, limit, dense) && Returned(points, filter, limit, listed)
    requires forall i :: 0 <= i < |dense| ==> dense[i].score == cosine(dense[i].Key())
    requires x in Candidates(cfg, query, dense, listed)
    ensures x in BruteForce(cfg, query, points, filter, cosine)
  {
    DenseScoresFacts(dense);
    var scores := DenseScores(dense);
    var c :| (c in dense || (c in listed && !HasKey(dense, c.Key()))) && x == Rescore(cfg, query, scores, c);
    if c in listed {
      ReturnedChunk(points, filter, limit, listed, c);
    }
    assert c in dense;
    ReturnedChunk(points, filter, limit, dense, c);
    var i :| 0 <= i < |dense| && dense[i] == c;
  }

  lemma BruteForceIsCandidate(cfg: HybridConfig, query: string, points: map<PointId, Point>, filter: RetrievalFilter,
                              cosine: PointId -> real, limit: nat, dense: seq<RetrievedChunk>, listed: seq<RetrievedChunk>,
                              x: RetrievedChunk)
    requires |MatchingIds(points, filter)| <= limit && Keyed(points) && Returned(points, filter, limit, dense)
    requires forall i :: 0 <= i < |dense| ==> dense[i].score == cosine(dense[i].Key())
    requires x in BruteForce(cfg, query, points, filter, cosine)
    ensures x in Candidates(cfg, query, dense, listed)
  {
    DenseScoresFacts(dense);
    var id :| id in MatchingIds(points, filter) && x == ToChunk(points[id], Blend(cfg, query, cosine(id), points[id].chunkText));
    var i :| 0 <= i < |dense| && dense[i].Key() == id;
    assert dense[i] in dense && x == Rescore(cfg, query, DenseScores(dense), dense[i]);
  }

  /**
   Against brute force: when no more chunks match than the store is asked for, the ranking is the
   ranking of all matching chunks, each scored directly.
   */
  lemma RankingIsBruteForce(cfg: HybridConfig, query: string, points: map<PointId, Point>, filter: RetrievalFilter,
                            cosine: PointId -> real, limit: nat, dense: seq<RetrievedChunk>, listed: seq<RetrievedChunk>)
    requires Keyed(points) && |MatchingIds(points, filter)| <= limit
    requires Returned(points, filter, limit, dense) && Returned(points, filter, limit, listed)
    requires forall i :: 0 <= i < |dense| ==> dense[i].score == cosine(dense[i].Key())
    ensures Candidates(cfg, query, dense, listed) == BruteForce(cfg, query, points, filter, cosine)
  {
    var candidates, brute := Candidates(cfg, query, dense, listed), BruteForce(cfg, query, points, filter, cosine);
    forall x | x in candidates
      ensures x in brute
    {
      CandidateIsBruteForce(cfg, query, points, filter, cosine, limit, dense, listed, x);
    }
    forall x | x in brute
      ensures x in candidates
    {
      BruteForceIsCandidate(cfg, query, points, filter, cosine, limit, dense, listed, x);
    }
  }
}
