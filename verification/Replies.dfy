/** Checking the JSON that providers send back: reranker results and embedding vectors. */
module Replies {
  import opened JsonValues
  import opened Retrieval
  import opened Sequences
  import opened Wrappers

  /** The value of what passes `isinstance(value, int)`; in Python the booleans do. */
  function AsInt(j: Json): Option<int> {
    match j
    case JInt(i) => Some(i)
    case JBool(b) => Some(if b then 1 else 0)
    case _ => None
  }

  /** The value of what passes `isinstance(value, int | float)`. */
  function AsNumber(j: Json): Option<real> {
    match j
    case JFloat(r) => Some(r)
    case _ => if AsInt(j).Some? then Some(AsInt(j).value as real) else None
  }

  /** The item's index, if it is one of 0..n-1. */
  function IndexOf(item: Json, n: nat): Option<nat> {
    var index := AsInt(Field(item, "index"));
    if index.Some? && 0 <= index.value < n then Some(index.value) else None
  }

  /** An earlier item of the list has the same index. */
  ghost predicate Repeated(items: seq<Json>, k: nat, n: nat)
    requires k < |items|
  {
    exists j :: 0 <= j < k && IndexOf(items[j], n).Some? && IndexOf(items[j], n) == IndexOf(items[k], n)
  }

  /** Some item of the list has index `i`. */
  ghost predicate Named(items: seq<Json>, n: nat, i: nat) {
    exists k :: 0 <= k < |items| && IndexOf(items[k], n) == Some(i)
  }

  // ----- what items say, literally -----

  /** The item is an object whose field holds this integer; `true` and `false` are 1 and 0. */
  ghost predicate Says(item: Json, key: string, i: int) {
    && item.JObject? && key in item.fields
    && (item.fields[key] == JInt(i) || (item.fields[key] == JBool(true) && i == 1) || (item.fields[key] == JBool(false) && i == 0))
  }

  lemma IndexMeaning(item: Json, n: nat, i: nat)
    ensures IndexOf(item, n) == Some(i) <==> i < n && Says(item, "index", i)
  {
  }

  /** A float, or what counts as an integer. */
  ghost predicate Measures(j: Json, r: real) {
    j == JFloat(r) || (j.JInt? && r == j.i as real) || (j == JBool(true) && r == 1.0) || (j == JBool(false) && r == 0.0)
  }

  lemma NumberMeaning(j: Json, r: real)
    ensures AsNumber(j) == Some(r) <==> Measures(j, r)
  {
  }

  // ----- reranking -----

  datatype RerankedChunk = RerankedChunk(chunk: RetrievedChunk, rerankScore: real)

  datatype RerankError = NoResults | InvalidItem | InvalidIndex | DuplicatedIndex | InvalidScore

  /** What is wrong with the k-th item, in the order in which the client looks. */
  ghost function RerankFault(items: seq<Json>, k: nat, n: nat): Option<RerankError>
    requires k < |items|
  {
    if !items[k].JObject? then Some(InvalidItem)
    else if IndexOf(items[k], n).None? then Some(InvalidIndex)
    else if Repeated(items, k, n) then Some(DuplicatedIndex)
    else if AsNumber(Field(items[k], "relevance_score")).None? then Some(InvalidScore)
    else None
  }

  /** All items are sound, and the results are the chunks that they name, with the scores that they give. */
  ghost predicate Accepted(items: seq<Json>, chunks: seq<RetrievedChunk>, reranked: seq<RerankedChunk>) {
    && |reranked| == |items|
    && (forall k :: 0 <= k < |items| ==>
         && RerankFault(items, k, |chunks|).None?
         && reranked[k].chunk == chunks[IndexOf(items[k], |chunks|).value]
         && Some(reranked[k].rerankScore) == AsNumber(Field(items[k], "relevance_score")))
  }

  /**
   Accepts a reply exactly when its first `topK` items are sound, and then selects the chunks that
   they name, in the reply's order and each at most once; otherwise the first fault is the error.
   */
  method ParseRerankReply(body: Json, chunks: seq<RetrievedChunk>, topK: nat) returns (r: Result<seq<RerankedChunk>, RerankError>)
    ensures !Field(body, "results").JList? ==> r == Err(NoResults)
    ensures Field(body, "results").JList? ==>
      var items := Head(Field(body, "results").items, topK);
      match r
      case Ok(reranked) =>
        Accepted(items, chunks, reranked)
      case Err(e) =>
        exists k :: 0 <= k < |items| && RerankFault(items, k, |chunks|) == Some(e)
          && forall j :: 0 <= j < k ==> RerankFault(items, j, |chunks|).None?
  {
    var results := Field(body, "results");
    if !results.JList? {
      return Err(NoResults);
    }
    var items := Head(results.items, topK);
    var n := |chunks|;
    var reranked: seq<RerankedChunk> := [];
    var used: set<nat> := {};
    for k := 0 to |items|
      invariant |reranked| == k
      invariant forall j :: 0 <= j < k ==>
        && RerankFault(items, j, n).None?
        && reranked[j].chunk == chunks[IndexOf(items[j], n).value]
        && Some(reranked[j].rerankScore) == AsNumber(Field(items[j], "relevance_score"))
      invariant forall i :: i in used <==> exists j :: 0 <= j < k && IndexOf(items[j], n) == Some(i)
    {
      var item := items[k];
      if !item.JObject? {
        assert RerankFault(items, k, n) == Some(InvalidItem);
        return Err(InvalidItem);
      }
      var index := IndexOf(item, n);
      var score := AsNumber(Field(item, "relevance_score"));
      if index.None? {
        assert RerankFault(items, k, n) == Some(InvalidIndex);
        return Err(InvalidIndex);
      }
      if index.value in used {
        assert RerankFault(items, k, n) == Some(DuplicatedIndex);
        return Err(DuplicatedIndex);
      }
      if score.None? {
        assert RerankFault(items, k, n) == Some(InvalidScore);
        return Err(InvalidScore);
      }
      used := used + {index.value};
      reranked := reranked + [RerankedChunk(chunks[index.value], score.value)];
    }
    r := Ok(reranked);
  }

  /** `[RerankedChunk(chunk, chunk.score) for chunk in chunks[:top_k]]`. */
  function PreserveScores(chunks: seq<RetrievedChunk>): (r: seq<RerankedChunk>)
    ensures |r| == |chunks| && forall k :: 0 <= k < |chunks| ==> r[k] == RerankedChunk(chunks[k], chunks[k].score)
  {
    if chunks == [] then [] else [RerankedChunk(chunks[0], chunks[0].score)] + PreserveScores(chunks[1..])
  }

  /** The k-th result is the chunk at the index that the k-th item says, with the score that it says. */
  lemma AcceptedMeaning(items: seq<Json>, chunks: seq<RetrievedChunk>, reranked: seq<RerankedChunk>, k: nat) returns (i: nat)
    requires Accepted(items, chunks, reranked) && k < |items|
    ensures i < |chunks| && Says(items[k], "index", i) && reranked[k].chunk == chunks[i]
    ensures "relevance_score" in items[k].fields && Measures(items[k].fields["relevance_score"], reranked[k].rerankScore)
  {
    assert RerankFault(items, k, |chunks|).None?;
    i := IndexOf(items[k], |chunks|).value;
    IndexMeaning(items[k], |chunks|, i);
    NumberMeaning(Field(items[k], "relevance_score"), reranked[k].rerankScore);
  }

  /** Each result is one of the chunks, no two of them the same one. */
  ghost predicate Selection(chunks: seq<RetrievedChunk>, reranked: seq<RerankedChunk>) {
    && (forall k :: 0 <= k < |reranked| ==> reranked[k].chunk in chunks)
    && (forall j, k :: 0 <= j < k < |reranked| ==> reranked[j].chunk.Key() != reranked[k].chunk.Key())
  }

  /** An accepted reply selects chunks injectively, so distinct chunks stay distinct. */
  lemma AcceptedRepliesSelect(items: seq<Json>, chunks: seq<RetrievedChunk>, reranked: seq<RerankedChunk>)
    requires UniqueKeys(chunks) && Accepted(items, chunks, reranked)
    ensures Selection(chunks, reranked)
  {
    forall j, k | 0 <= j < k < |reranked|
      ensures reranked[j].chunk.Key() != reranked[k].chunk.Key()
    {
      assert RerankFault(items, j, |chunks|).None? && RerankFault(items, k, |chunks|).None?;
      assert !Repeated(items, k, |chunks|);
      var a, b := IndexOf(items[j], |chunks|).value, IndexOf(items[k], |chunks|).value;
      assert a != b;
    }
  }

  // ----- embeddings -----

  datatype EmbeddingError = InvalidData | InvalidEntry | BadIndex | IndexRepeated | BadSize | BadValue | Incomplete

  /** The vector of an item, if it is a list of `size` numbers. */
  function Numbers(items: seq<Json>): Option<seq<real>> {
    if items == [] then Some([])
    else
      var first, rest := AsNumber(items[0]), Numbers(items[1..]);
      if first.Some? && rest.Some? then Some([first.value] + rest.value) else None
  }

  function VectorOf(item: Json, size: nat): Option<seq<real>> {
    var embedding := Field(item, "embedding");
    if embedding.JList? && |embedding.items| == size then Numbers(embedding.items) else None
  }

  ghost predicate AllMeasure(items: seq<Json>, vector: seq<real>) {
    |vector| == |items| && forall i :: 0 <= i < |items| ==> Measures(items[i], vector[i])
  }

  lemma {:induction false} NumbersMeaning(items: seq<Json>, vector: seq<real>)
    ensures Numbers(items) == Some(vector) <==> AllMeasure(items, vector)
  {
    if items != [] && vector != [] {
      NumbersMeaning(items[1..], vector[1..]);
      NumberMeaning(items[0], vector[0]);
      FirstMeasures(items, vector);
      assert vector == [vector[0]] + vector[1..];
    }
  }

  lemma FirstMeasures(items: seq<Json>, vector: seq<real>)
    requires items != [] && vector != []
    ensures AllMeasure(items, vector) <==> Measures(items[0], vector[0]) && AllMeasure(items[1..], vector[1..])
  {
    if Measures(items[0], vector[0]) && AllMeasure(items[1..], vector[1..]) {
      forall i | 0 <= i < |items|
        ensures Measures(items[i], vector[i])
      {
        if i > 0 {
          assert Measures(items[1..][i - 1], vector[1..][i - 1]);
        }
      }
    }
  }

  /** An item's vector is the list under `embedding`, if it has the right length and holds numbers only. */
  lemma VectorMeaning(item: Json, size: nat, vector: seq<real>)
    ensures VectorOf(item, size) == Some(vector)
      <==> item.JObject? && "embedding" in item.fields && item.fields["embedding"].JList?
           && var items := item.fields["embedding"].items;
              |items| == size && AllMeasure(items, vector)
  {
    var embedding := Field(item, "embedding");
    if embedding.JList? {
      NumbersMeaning(embedding.items, vector);
    }
  }

  ghost function EmbeddingFault(items: seq<Json>, k: nat, size: nat): Option<EmbeddingError>
    requires k < |items|
  {
    if !items[k].JObject? then Some(InvalidEntry)
    else if IndexOf(items[k], |items|).None? then Some(BadIndex)
    else if Repeated(items, k, |items|) then Some(IndexRepeated)
    else
      var embedding := Field(items[k], "embedding");
      if !embedding.JList? || |embedding.items| != size then Some(BadSize)
      else if VectorOf(items[k], size).None? then Some(BadValue)
      else None
  }

  lemma {:induction false} NumbersPrefix(items: seq<Json>, n: nat)
    requires n < |items|
    ensures Numbers(items[..n + 1])
      == if Numbers(items[..n]).Some? && AsNumber(items[n]).Some?
         then Some(Numbers(items[..n]).value + [AsNumber(items[n]).value]) else None
  {
    if n > 0 {
      assert items[..n + 1][1..] == items[1..][..n] && items[..n][1..] == items[1..][..n - 1];
      NumbersPrefix(items[1..], n - 1);
      if Numbers(items[..n + 1]).Some? {
        var front, last := AsNumber(items[0]).value, AsNumber(items[n]).value;
        Regroup([front], Numbers(items[1..][..n - 1]).value, [last]);
      }
    } else {
      assert items[..1][1..] == [] && items[..0] == [] && items[..1][0] == items[0];
      if AsNumber(items[0]).Some? {
        assert [AsNumber(items[0]).value] + [] == [] + [AsNumber(items[0]).value];
      }
    }
  }

  lemma {:induction false} NumbersFail(items: seq<Json>, k: nat)
    requires k < |items| && AsNumber(items[k]).None?
    ensures Numbers(items).None?
  {
    if k > 0 {
      NumbersFail(items[1..], k - 1);
    }
  }

  method ReadVector(items: seq<Json>) returns (vector: Option<seq<real>>)
    ensures vector == Numbers(items)
  {
    var values: seq<real> := [];
    for n := 0 to |items|
      invariant Numbers(items[..n]) == Some(values)
    {
      var value := AsNumber(items[n]);
      if value.None? {
        NumbersFail(items, n);
        return None;
      }
      NumbersPrefix(items, n);
      values := values + [value.value];
    }
    assert items[..|items|] == items;
    vector := Some(values);
  }

  /**
   Accepts a reply exactly when it has one sound item for each text.  The items then name every
   position once, each position gets the vector of the item that names it, and the closing check
   for missing vectors never fires.
   */
  method ParseEmbeddingReply(body: Json, expectedCount: nat, size: nat) returns (r: Result<seq<seq<real>>, EmbeddingError>)
    ensures !(Field(body, "data").JList? && |Field(body, "data").items| == expectedCount) ==> r == Err(InvalidData)
    ensures Field(body, "data").JList? && |Field(body, "data").items| == expectedCount ==>
      var items := Field(body, "data").items;
      match r
      case Ok(vectors) =>
        && |vectors| == expectedCount
        && (forall k :: 0 <= k < |items| ==>
             EmbeddingFault(items, k, size).None?
             && vectors[IndexOf(items[k], |items|).value] == VectorOf(items[k], size).value)
        && (forall i :: 0 <= i < |vectors| ==> Named(items, |items|, i))
      case Err(e) =>
        exists k :: 0 <= k < |items| && EmbeddingFault(items, k, size) == Some(e)
          && forall j :: 0 <= j < k ==> EmbeddingFault(items, j, size).None?
  {
    var data := Field(body, "data");
    if !data.JList? || |data.items| != expectedCount {
      return Err(InvalidData);
    }
    var items, n := data.items, expectedCount;
    var vectors := new Option<seq<real>>[n](_ => None);
    for k := 0 to n
      invariant forall j :: 0 <= j < k ==>
        EmbeddingFault(items, j, size).None? && vectors[IndexOf(items[j], n).value] == VectorOf(items[j], size)
      invariant forall i :: 0 <= i < n && vectors[i].Some? ==> exists j :: 0 <= j < k && IndexOf(items[j], n) == Some(i)
    {
      var item := items[k];
      if !item.JObject? {
        assert EmbeddingFault(items, k, size) == Some(InvalidEntry);
        return Err(InvalidEntry);
      }
      var index := IndexOf(item, n);
      if index.None? {
        assert EmbeddingFault(items, k, size) == Some(BadIndex);
        return Err(BadIndex);
      }
      if vectors[index.value].Some? {
        assert EmbeddingFault(items, k, size) == Some(IndexRepeated);
        return Err(IndexRepeated);
      }
      assert !Repeated(items, k, n);
      var embedding := Field(item, "embedding");
      if !embedding.JList? || |embedding.items| != size {
        assert EmbeddingFault(items, k, size) == Some(BadSize);
        return Err(BadSize);
      }
      var vector := ReadVector(embedding.items);
      if vector.None? {
        assert EmbeddingFault(items, k, size) == Some(BadValue);
        return Err(BadValue);
      }
      assert EmbeddingFault(items, k, size).None?;
      vectors[index.value] := vector;
    }
    EveryPositionNamed(items, size);
    forall i: nat | i < n
      ensures vectors[i].Some?
    {
      assert Named(items, n, i);
    }
    var complete := forall i :: 0 <= i < n ==> vectors[i].Some?;
    var result := [];
    for i := 0 to n
      invariant |result| == i && forall j :: 0 <= j < i ==> vectors[j] == Some(result[j])
    {
      result := result + [vectors[i].value];
    }
    r := if complete then Ok(result) else Err(Incomplete);
  }

  /** Sound items name every position. */
  lemma EveryPositionNamed(items: seq<Json>, size: nat)
    requires forall k :: 0 <= k < |items| ==> EmbeddingFault(items, k, size).None?
    ensures forall i: nat :: i < |items| ==> Named(items, |items|, i)
  {
    var n := |items|;
    var names := seq(n, k requires 0 <= k < n => if IndexOf(items[k], n).Some? then IndexOf(items[k], n).value else 0);
    forall k | 0 <= k < n
      ensures names[k] < n
    {
      assert EmbeddingFault(items, k, size).None?;
    }
    forall j, k | 0 <= j < k < n
      ensures names[j] != names[k]
    {
      assert EmbeddingFault(items, j, size).None? && EmbeddingFault(items, k, size).None?;
      assert !Repeated(items, k, n);
    }
    forall i: nat | i < n
      ensures Named(items, n, i)
    {
      var k := Pigeonhole(names, i);
      assert EmbeddingFault(items, k, size).None?;
      assert IndexOf(items[k], n) == Some(i);
    }
  }
}
