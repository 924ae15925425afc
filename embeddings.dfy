/** Embedding and re-rank helpers (src/embeddings.py): the decision on the embedding
    provider's reply, the token count and re-rank score read off an HTTP reply, and the
    chunking of the search content into pieces the re-rank model accepts. The network
    calls themselves are inputs: each reply is given as a value. */
module Embeddings {
  import opened Wrappers
  import opened Seqs

  /** An embedding vector. */
  type Vector = seq<real>

  /** What `emb_llm.embeddings.create` produced: no (falsy) response, a response with its
      data items (one vector each), or an `OpenAIError`. */
  datatype EmbeddingReply = NoResponse | EmbeddingData(items: seq<Vector>) | ProviderFailure(message: string)

  /** `generate_embedding`: the first item's vector, or None when there is no response,
      no data, or the provider failed. */
  function GenerateEmbedding(reply: EmbeddingReply): (r: Option<Vector>)
    ensures r.Some? <==> reply.EmbeddingData? && reply.items != []
    ensures r.Some? ==> r.value == reply.items[0]
  {
    match reply
    case NoResponse => None
    case ProviderFailure(_) => None
    case EmbeddingData(items) => if items == [] then None else Some(items[0])
  }

  /** An HTTP reply: its status code and the JSON body it carries when the status is 200. */
  datatype HttpReply<T> = HttpReply(status: int, body: T)

  /** The status text of the `HTTPStatusError` that `raise_for_status` raises. */
  const HttpStatusError := "HTTPStatusError"

  /** The tail shared by `get_num_tokens` and `get_rerank_score`: status 200 reads the
      body; `raise_for_status` raises for every status outside 2xx; any other 2xx status
      falls through to the function's final `return`. */
  function StatusOutcome<T>(status: int, read: T, fallThrough: T): (r: Result<T, string>)
    ensures r.Failure? <==> !(200 <= status < 300)
    ensures status == 200 ==> r == Success(read)
    ensures status != 200 && r.Success? ==> r.value == fallThrough
  {
    if status == 200 then Success(read)
    else if 200 <= status < 300 then Success(fallThrough)
    else Failure(HttpStatusError)
  }

  /** `get_num_tokens`: the tokenizer's `count`, 0 for a 2xx reply other than 200, and an
      error for any other status. */
  function GetNumTokens(reply: HttpReply<int>): (r: Result<int, string>)
    ensures r.Success? <==> 200 <= reply.status < 300
    ensures reply.status == 200 ==> r == Success(reply.body)
    ensures reply.status != 200 && r.Success? ==> r.value == 0
  {
    StatusOutcome(reply.status, reply.body, 0)
  }

  /** `max_chunk_size = reranking_model_max_context // 2` (floor division). */
  function MaxChunkSize(maxContext: int): (n: int)
    ensures 2 * n <= maxContext < 2 * n + 2
  {
    maxContext / 2
  }

  /** The pieces `[s[i:i + size] for i in range(0, len(s), size)]` for a positive
      `size`: consecutive slices of `size` characters, the last one possibly shorter. */
  function Chunks(s: string, size: nat): seq<string>
    requires size > 0
    decreases |s|
  {
    if |s| == 0 then []
    else if |s| <= size then [s]
    else [s[..size]] + Chunks(s[size..], size)
  }

  /** The chunks put back together give the content back. */
  lemma {:induction false} ChunksConcat(s: string, size: nat)
    requires size > 0
    ensures Concat(Chunks(s, size)) == s
    decreases |s|
  {
    if |s| == 0 {
    } else if |s| <= size {
      assert Concat([s]) == Concat([s][..0]) + s;
    } else {
      var cs := Chunks(s, size);
      ChunksConcat(s[size..], size);
      ConcatCons(cs);
      assert cs[1..] == Chunks(s[size..], size);
      assert s == s[..size] + s[size..];
    }
  }

  /** No chunk is empty or longer than `size`, and every chunk but the last is exactly
      `size` long. */
  lemma {:induction false} ChunkSizes(s: string, size: nat)
    requires size > 0
    ensures var cs := Chunks(s, size);
            forall k :: 0 <= k < |cs| ==>
              0 < |cs[k]| <= size && (k < |cs| - 1 ==> |cs[k]| == size)
    decreases |s|
  {
    if |s| > size {
      ChunkSizes(s[size..], size);
      var cs := Chunks(s, size);
      assert forall k :: 1 <= k < |cs| ==> cs[k] == Chunks(s[size..], size)[k - 1];
    }
  }

  /** There are `ceil(len(s) / size)` chunks: none for empty content, otherwise the
      smallest `n` with `n * size >= len(s)`. */
  lemma {:induction false} ChunkCount(s: string, size: nat)
    requires size > 0
    ensures var n := |Chunks(s, size)|;
            && (n == 0 <==> |s| == 0)
            && (n > 0 ==> (n - 1) * size < |s| <= n * size)
    decreases |s|
  {
    if |s| > size {
      var n' := |Chunks(s[size..], size)|;
      ChunkCount(s[size..], size);
      MulSucc(n', size);
      MulSucc(n' - 1, size);
    }
  }

  lemma MulSucc(n: int, size: int)
    ensures (n + 1) * size == n * size + size
  {
  }

  /** The `k`-th chunk is the slice `s[k*size : (k+1)*size]`, clamped to the content. */
  lemma {:induction false} ChunkAt(s: string, size: nat, k: nat)
    requires size > 0 && k < |Chunks(s, size)|
    ensures k * size < |s|
    ensures Chunks(s, size)[k] == s[k * size..Min((k + 1) * size, |s|)]
    decreases |s|
  {
    if k > 0 {
      var t := s[size..];
      ChunkAt(t, size, k - 1);
      MulSucc(k - 1, size);
      MulSucc(k, size);
      assert Chunks(s, size)[k] == Chunks(t, size)[k - 1];
      assert t[(k - 1) * size..Min(k * size, |t|)] == s[k * size..Min((k + 1) * size, |s|)];
    }
  }

  /** The message of the `ValueError` that `range` raises for a zero step. */
  const ZeroStepError := "range() arg 3 must not be zero"

  /** The re-rank documents of `get_rerank_score`: the chunks for a positive chunk size,
      no chunks for a negative one (an empty `range`), and the `ValueError` of a zero step. */
  function RerankChunks(content: string, maxContext: int): (r: Result<seq<string>, string>)
    ensures r.Failure? <==> MaxChunkSize(maxContext) == 0
    ensures MaxChunkSize(maxContext) < 0 ==> r == Success([])
    ensures MaxChunkSize(maxContext) > 0 ==> r == Success(Chunks(content, MaxChunkSize(maxContext)))
  {
    var size := MaxChunkSize(maxContext);
    if size == 0 then Failure(ZeroStepError)
    else if size < 0 then Success([])
    else Success(Chunks(content, size))
  }

  /** The score picked from the `/rerank` results (each with an optional
      `relevance_score`): 0.0 when there are none, otherwise the first result's. */
  function PickScore(results: seq<Option<real>>): (r: real)
    ensures results == [] ==> r == 0.0
    ensures results != [] ==> r == results[0].GetOr(0.0)
  {
    if |results| == 0 then 0.0 else results[0].GetOr(0.0)
  }

  /** `get_rerank_score`: chunk the content, post the chunks (`rerank` is the service's
      reply to them) and read the score off the reply. */
  function GetRerankScore(content: string, maxContext: int,
                          rerank: seq<string> -> HttpReply<seq<Option<real>>>): (r: Result<real, string>)
    ensures MaxChunkSize(maxContext) == 0 ==> r == Failure(ZeroStepError)
    ensures MaxChunkSize(maxContext) != 0 ==>
              var reply := rerank(RerankChunks(content, maxContext).value);
              && (r.Success? <==> 200 <= reply.status < 300)
              && (reply.status == 200 ==> r == Success(PickScore(reply.body)))
              && (reply.status != 200 && r.Success? ==> r.value == 0.0)
  {
    match RerankChunks(content, maxContext)
    case Failure(e) => Failure(e)
    case Success(chunks) =>
      var reply := rerank(chunks);
      StatusOutcome(reply.status, PickScore(reply.body), 0.0)
  }

  /** Results listed best first (as re-rank services return them). */
  predicate BestFirst(results: seq<Option<real>>)
  {
    forall i :: 0 < i < |results| ==> results[i].GetOr(0.0) <= results[0].GetOr(0.0)
  }

  /** A score as the service reports it, 0.0 when missing (`.get("relevance_score", .0)`). */
  function ScoreOf(x: Option<real>): real
  {
    x.GetOr(0.0)
  }

  /** The maximum re-rank score over the chunks, which the doc-comment of
      `get_rerank_score` promises; 0.0 when there are no results. */
  function MaxScore(results: seq<Option<real>>): real
  {
    if |results| == 0 then 0.0
    else if |results| == 1 then ScoreOf(results[0])
    else
      var rest := MaxScore(results[1..]);
      if ScoreOf(results[0]) >= rest then ScoreOf(results[0]) else rest
  }

  /** The maximum bounds every result's score and is the score of one of them. */
  lemma {:induction false} MaxScoreIsMax(results: seq<Option<real>>)
    requires results != []
    ensures forall i :: 0 <= i < |results| ==> ScoreOf(results[i]) <= MaxScore(results)
    ensures exists i :: 0 <= i < |results| && ScoreOf(results[i]) == MaxScore(results)
  {
    if |results| > 1 {
      var rest := results[1..];
      MaxScoreIsMax(rest);
      forall i | 0 <= i < |results|
        ensures ScoreOf(results[i]) <= MaxScore(results)
      {
        if i > 0 {
          assert results[i] == rest[i - 1];
        }
      }
      var k :| 0 <= k < |rest| && ScoreOf(rest[k]) == MaxScore(rest);
      assert results[k + 1] == rest[k];
    } else {
      assert ScoreOf(results[0]) == MaxScore(results);
    }
  }

  /** The pick is the promised maximum exactly when the service lists the best result
      first. */
  lemma PickScoreIsMaxIff(results: seq<Option<real>>)
    requires results != []
    ensures PickScore(results) == MaxScore(results) <==> BestFirst(results)
  {
    MaxScoreIsMax(results);
    if BestFirst(results) {
      var k :| 0 <= k < |results| && ScoreOf(results[k]) == MaxScore(results);
      assert ScoreOf(results[k]) <= ScoreOf(results[0]);
    }
    if PickScore(results) == MaxScore(results) {
      forall i | 0 < i < |results|
        ensures results[i].GetOr(0.0) <= results[0].GetOr(0.0)
      {
        assert ScoreOf(results[i]) <= MaxScore(results);
      }
    }
  }

  /** In any other order it is not: the pick is the first result, not the best one. */
  lemma PickScoreIsFirstNotMax()
    ensures PickScore([Some(0.1), Some(0.9)]) == 0.1
    ensures MaxScore([Some(0.1), Some(0.9)]) == 0.9
    ensures !BestFirst([Some(0.1), Some(0.9)])
  {
    var rs := [Some(0.1), Some(0.9)];
    assert rs[1..] == [Some(0.9)];
    assert rs[1].GetOr(0.0) > rs[0].GetOr(0.0);
  }
}
