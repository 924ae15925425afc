/** The vector store (src/vectordb.py): the Qdrant-backed store that lists the knowledge
    collections and runs a similarity search in one of them, keeping the points whose
    score clears the threshold. The Qdrant client's calls are inputs: the client is a
    value that says what each call returns. */
module VectorDb {
  import opened Wrappers
  import opened Seqs
  import opened Hits

  /** The payload of a stored point: the four keys `search` reads from it. */
  datatype Payload = Payload(url: string, kind: string, text: string, components: seq<string>)

  /** A scored point as the client returns it. */
  datatype Point = Point(score: real, payload: Payload)

  /** What a client call returned: its items, or the `ApiException` it raised. */
  datatype Listing<T> = Listed(items: seq<T>) | ApiError(message: string)

  /** A Qdrant client: the points `search` returns for a query vector in a collection,
      and the collection names `get_collections` lists. */
  datatype Client = Client(search: (seq<real>, string) -> Listing<Point>,
                           collections: Listing<string>)

  /** The result dictionary built from one point: its score, kind, text and components,
      and its `url` as the only other key. */
  function ToHit(p: Point): Hit
  {
    Hit(Some(p.score), Some(p.payload.kind), Some(p.payload.text), p.payload.components,
        [Field("url", p.payload.url)])
  }

  /** The hit carries exactly the point's score, kind, text, components and url, and is a
      well-formed dictionary whose only other key is `url`. */
  lemma ToHitFields(p: Point)
    ensures var h := ToHit(p);
            && h.score == Some(p.score)
            && h.kind == Some(p.payload.kind) && h.text == Some(p.payload.text)
            && h.components == p.payload.components
            && Url(h) == Some(p.payload.url) && Keys(h.others) == ["url"]
            && WellFormed(h)
  {
    var fs := ToHit(p).others;
    assert fs[1..] == [];
    assert Keys(fs) == ["url"];
  }

  /** The results of a search: the points whose score is at least the threshold, as
      hits, in the client's order. */
  function Passing(points: seq<Point>, threshold: real): seq<Hit>
  {
    if points == [] then []
    else
      var last := points[|points| - 1];
      Passing(points[..|points| - 1], threshold) + (if last.score >= threshold then [ToHit(last)] else [])
  }

  /** What `search` returns with a given client: nothing without a client or when the
      client raised, otherwise the passing points. */
  function Found(client: Option<Client>, embedding: seq<real>, threshold: real, collection: string): seq<Hit>
  {
    if client.None? then []
    else
      match client.value.search(embedding, collection)
      case ApiError(_) => []
      case Listed(points) => Passing(points, threshold)
  }

  /** Filtering distributes over concatenation: the order of the client's points is kept. */
  lemma {:induction false} PassingAppend(a: seq<Point>, b: seq<Point>, threshold: real)
    ensures Passing(a + b, threshold) == Passing(a, threshold) + Passing(b, threshold)
    decreases |b|
  {
    if b == [] {
      assert a + b == a;
    } else {
      var n := |b| - 1;
      PassingAppend(a, b[..n], threshold);
      assert (a + b)[..|a + b| - 1] == a + b[..n];
      assert (a + b)[|a + b| - 1] == b[n];
      var tail := if b[n].score >= threshold then [ToHit(b[n])] else [];
      assert Passing(a + b, threshold) == Passing(a + b[..n], threshold) + tail;
      assert Passing(b, threshold) == Passing(b[..n], threshold) + tail;
      AppendAssoc(Passing(a, threshold), Passing(b[..n], threshold), tail);
    }
  }

  /** A hit is returned exactly when it comes from a point that clears the threshold. */
  lemma {:induction false} PassingMembers(points: seq<Point>, threshold: real, h: Hit)
    ensures h in Passing(points, threshold) <==>
              exists i :: 0 <= i < |points| && points[i].score >= threshold && h == ToHit(points[i])
    decreases |points|
  {
    if points != [] {
      var n := |points| - 1;
      PassingMembers(points[..n], threshold, h);
      if h in Passing(points[..n], threshold) {
        var i :| 0 <= i < n && points[..n][i].score >= threshold && h == ToHit(points[..n][i]);
        assert points[i] == points[..n][i];
      }
      if exists i :: 0 <= i < |points| && points[i].score >= threshold && h == ToHit(points[i]) {
        var i :| 0 <= i < |points| && points[i].score >= threshold && h == ToHit(points[i]);
        if i < n {
          assert points[..n][i] == points[i];
        }
      }
    }
  }

  /** Every returned hit has a score, and it is at least the threshold. */
  lemma PassingClearsThreshold(points: seq<Point>, threshold: real)
    ensures forall h :: h in Passing(points, threshold) ==> h.score.Some? && h.score.value >= threshold
  {
    forall h | h in Passing(points, threshold)
      ensures h.score.Some? && h.score.value >= threshold
    {
      PassingMembers(points, threshold, h);
    }
  }

  /** Whatever the client does, every hit `search` returns clears the threshold. */
  lemma FoundClearsThreshold(client: Option<Client>, embedding: seq<real>, threshold: real, collection: string)
    ensures forall h :: h in Found(client, embedding, threshold, collection) ==>
              h.score.Some? && h.score.value >= threshold
  {
    if client.Some? && client.value.search(embedding, collection).Listed? {
      PassingClearsThreshold(client.value.search(embedding, collection).items, threshold);
    }
  }

  /** With the threshold at 0.8, the points scored 0.9, 0.85 and 0.7 give the first two
      back, in their order. */
  lemma PassingExample(p: Payload, q: Payload, r: Payload)
    ensures Passing([Point(0.9, p), Point(0.85, q), Point(0.7, r)], 0.8)
              == [ToHit(Point(0.9, p)), ToHit(Point(0.85, q))]
  {
    var ps := [Point(0.9, p), Point(0.85, q), Point(0.7, r)];
    assert ps[..2] == [Point(0.9, p), Point(0.85, q)];
    assert ps[..2][..1] == [Point(0.9, p)];
    assert ps[..2][..1][..0] == [];
    assert Passing(ps[..2][..1], 0.8) == [ToHit(ps[0])];
    assert Passing(ps[..2], 0.8) == [ToHit(ps[0])] + [ToHit(ps[1])];
  }

  /** The collection names `get_collections` returns: those listed, each once, in the
      order of first listing; none when listing raised. */
  function CollectionNames(listing: Listing<string>): (names: seq<string>)
    ensures NoDuplicates(names)
    ensures listing.Listed? ==> forall x :: x in names <==> x in listing.items
    ensures listing.ApiError? ==> names == []
  {
    match listing
    case ApiError(_) => []
    case Listed(items) => Distinct(items)
  }

  /** `QdrantVectorStore`: the store holds its client, which may be absent. */
  class QdrantVectorStore {
    var client: Option<Client>

    constructor (client: Option<Client>)
      ensures this.client == client
    {
      this.client := client;
    }

    /** `get_collections`: the names the client lists, deduplicated in order. The source
        calls the client unconditionally, so a store without one is outside its domain. */
    method GetCollections() returns (collections: seq<string>)
      requires client.Some?
      ensures collections == CollectionNames(client.value.collections)
    {
      collections := [];
      var listing := client.value.collections;
      if listing.ApiError? {
        return;
      }
      var names := listing.items;
      for i := 0 to |names|
        invariant collections == Distinct(names[..i])
      {
        assert names[..i + 1] == names[..i] + [names[i]];
        DistinctAppendOne(names[..i], names[i]);
        if names[i] !in collections {
          collections := collections + [names[i]];
        }
      }
      assert names[..|names|] == names;
    }

    /** `search`: the points of the collection closest to the embedding whose score is
        at least the threshold, each as a result dictionary, in the client's order. */
    method Search(embedding: seq<real>, similarityThreshold: real, collectionName: string)
      returns (results: seq<Hit>)
      ensures results == Found(client, embedding, similarityThreshold, collectionName)
    {
      results := [];
      if client.None? {
        return;
      }
      var searchResults := client.value.search(embedding, collectionName);
      if searchResults.ApiError? {
        return;
      }
      var points := searchResults.items;
      for i := 0 to |points|
        invariant results == Passing(points[..i], similarityThreshold)
      {
        var res := points[i];
        assert points[..i + 1][..i] == points[..i];
        if res.score >= similarityThreshold {
          results := results + [ToHit(res)];
        }
      }
      assert points[..|points|] == points;
    }
  }
}
