/** The retrieval side of the chat handler (src/chat.py): searching every collection
    with one embedding and merging the hits best first, the plain-text prompt, the
    "Top related knowledge" footer, the similarity threshold the user may set, and the
    history helpers that feed the search. */
module Chat {
  import opened Wrappers
  import opened Seqs
  import opened Hits
  import opened Messages
  import Constants
  import Prompt
  import Embeddings
  import VectorDb

  // ---------------------------------------------------------------------------------
  // Sorting the merged hits best first, a missing score counting as 0

  /** Put `h` before the first hit that does not score higher: a stable insertion. */
  function InsertByScore(h: Hit, s: seq<Hit>): seq<Hit>
  {
    if s == [] || SortKey(s[0]) <= SortKey(h) then [h] + s
    else [s[0]] + InsertByScore(h, s[1..])
  }

  /** Python's stable sort by descending score. */
  function SortByScore(s: seq<Hit>): seq<Hit>
  {
    if s == [] then [] else InsertByScore(s[0], SortByScore(s[1..]))
  }

  predicate SortedByScore(s: seq<Hit>)
  {
    forall i, j :: 0 <= i < j < |s| ==> SortKey(s[i]) >= SortKey(s[j])
  }

  /** The hits of score `v`, in their order in `s`. */
  function WithScore(s: seq<Hit>, v: real): seq<Hit>
  {
    if s == [] then []
    else (if SortKey(s[0]) == v then [s[0]] else []) + WithScore(s[1..], v)
  }

  lemma {:induction false} InsertPermutes(h: Hit, s: seq<Hit>)
    ensures multiset(InsertByScore(h, s)) == multiset(s) + multiset{h}
    decreases |s|
  {
    if s != [] && SortKey(s[0]) > SortKey(h) {
      InsertPermutes(h, s[1..]);
      assert s == [s[0]] + s[1..];
    }
  }

  lemma {:induction false} InsertKeepsSorted(h: Hit, s: seq<Hit>)
    requires SortedByScore(s)
    ensures var r := InsertByScore(h, s);
            && SortedByScore(r)
            && r != []
            && (r[0] == h || (s != [] && r[0] == s[0]))
    decreases |s|
  {
    if s != [] && SortKey(s[0]) > SortKey(h) {
      var rest := InsertByScore(h, s[1..]);
      InsertKeepsSorted(h, s[1..]);
      var r := [s[0]] + rest;
      assert SortKey(s[0]) >= SortKey(rest[0]);
      forall i, j | 0 <= i < j < |r|
        ensures SortKey(r[i]) >= SortKey(r[j])
      {
        if i == 0 && j > 1 {
          assert SortKey(rest[0]) >= SortKey(rest[j - 1]);
        }
      }
    }
  }

  /** The sort orders the hits best first and keeps exactly the same hits. */
  lemma {:induction false} SortByScoreSortsAndPermutes(s: seq<Hit>)
    ensures SortedByScore(SortByScore(s))
    ensures multiset(SortByScore(s)) == multiset(s)
    decreases |s|
  {
    if s != [] {
      SortByScoreSortsAndPermutes(s[1..]);
      InsertKeepsSorted(s[0], SortByScore(s[1..]));
      InsertPermutes(s[0], SortByScore(s[1..]));
      assert s == [s[0]] + s[1..];
    }
  }

  lemma {:induction false} InsertStable(h: Hit, s: seq<Hit>, v: real)
    ensures WithScore(InsertByScore(h, s), v) == (if SortKey(h) == v then [h] else []) + WithScore(s, v)
    decreases |s|
  {
    if s != [] && SortKey(s[0]) > SortKey(h) {
      var rest := InsertByScore(h, s[1..]);
      InsertStable(h, s[1..], v);
      assert ([s[0]] + rest)[1..] == rest;
      var lead := if SortKey(s[0]) == v then [s[0]] else [];
      var mine := if SortKey(h) == v then [h] else [];
      assert lead == [] || mine == [];
      AppendAssoc(lead, mine, WithScore(s[1..], v));
    } else {
      assert ([h] + s)[1..] == s;
    }
  }

  /** The sort is stable: hits of equal score keep their relative order. */
  lemma {:induction false} SortByScoreStable(s: seq<Hit>, v: real)
    ensures WithScore(SortByScore(s), v) == WithScore(s, v)
    decreases |s|
  {
    if s != [] {
      SortByScoreStable(s[1..], v);
      InsertStable(s[0], SortByScore(s[1..]), v);
    }
  }

  // ---------------------------------------------------------------------------------
  // perform_multi_collection_search

  /** The hits of one collection, each tagged with the collection's name. */
  function TagAll(hs: seq<Hit>, collection: string): (r: seq<Hit>)
    ensures |r| == |hs|
    ensures forall k :: 0 <= k < |hs| ==> r[k] == Tag(hs[k], collection)
  {
    if hs == [] then [] else [Tag(hs[0], collection)] + TagAll(hs[1..], collection)
  }

  /** The tagged hits of every collection, collection after collection, each in the
      store's order. `search(e, c)` is what the vector store returns for the query
      embedding `e` in collection `c`. */
  function Merged(collections: seq<string>, e: Embeddings.Vector,
                  search: (Embeddings.Vector, string) -> seq<Hit>): seq<Hit>
  {
    if collections == [] then []
    else
      var last := collections[|collections| - 1];
      Merged(collections[..|collections| - 1], e, search) + TagAll(search(e, last), last)
  }

  /** Every merged hit is a hit of one of the collections, tagged with that collection's
      name. */
  lemma {:induction false} MergedFromCollections(collections: seq<string>, e: Embeddings.Vector,
                                                 search: (Embeddings.Vector, string) -> seq<Hit>, x: Hit)
    requires x in Merged(collections, e, search)
    ensures exists i :: 0 <= i < |collections| &&
              x in TagAll(search(e, collections[i]), collections[i]) &&
              Lookup(x.others, "collection") == Some(collections[i])
    decreases |collections|
  {
    var n := |collections| - 1;
    var p := collections[..n];
    var tagged := TagAll(search(e, collections[n]), collections[n]);
    if x in tagged {
      var k :| 0 <= k < |tagged| && tagged[k] == x;
      assert Lookup(x.others, "collection") == Some(collections[n]);
    } else {
      MergedFromCollections(p, e, search, x);
      var i :| 0 <= i < |p| && x in TagAll(search(e, p[i]), p[i]) && Lookup(x.others, "collection") == Some(p[i]);
      assert p[i] == collections[i];
    }
  }

  /** Every hit of every collection is among the merged hits, tagged. */
  lemma {:induction false} MergedCoversCollections(collections: seq<string>, e: Embeddings.Vector,
                                                   search: (Embeddings.Vector, string) -> seq<Hit>, i: nat, k: nat)
    requires i < |collections| && k < |search(e, collections[i])|
    ensures Tag(search(e, collections[i])[k], collections[i]) in Merged(collections, e, search)
    decreases |collections|
  {
    var n := |collections| - 1;
    var tagged := TagAll(search(e, collections[n]), collections[n]);
    if i == n {
      assert tagged[k] == Tag(search(e, collections[i])[k], collections[i]);
    } else {
      var p := collections[..n];
      assert p[i] == collections[i];
      MergedCoversCollections(p, e, search, i, k);
    }
  }

  /** The merged, sorted search results: best first, stably, and exactly the tagged hits
      of all collections. */
  lemma SearchResultsAreSortedMerge(collections: seq<string>, e: Embeddings.Vector,
                                    search: (Embeddings.Vector, string) -> seq<Hit>, v: real)
    ensures var all := Merged(collections, e, search);
            var out := SortByScore(all);
            && SortedByScore(out)
            && multiset(out) == multiset(all)
            && WithScore(out, v) == WithScore(all, v)
  {
    SortByScoreSortsAndPermutes(Merged(collections, e, search));
    SortByScoreStable(Merged(collections, e, search), v);
  }

  /** Tagging and sorting drop no score: when every collection's hits clear the
      threshold (as the vector store's search guarantees), so does every merged result. */
  lemma MergedHitsClearThreshold(collections: seq<string>, e: Embeddings.Vector,
                                 search: (Embeddings.Vector, string) -> seq<Hit>, threshold: real, x: Hit)
    requires forall c, h :: h in search(e, c) ==> h.score.Some? && h.score.value >= threshold
    requires x in SortByScore(Merged(collections, e, search))
    ensures x.score.Some? && x.score.value >= threshold
  {
    SortByScoreSortsAndPermutes(Merged(collections, e, search));
    assert x in multiset(Merged(collections, e, search));
    MergedFromCollections(collections, e, search, x);
    var i :| 0 <= i < |collections| && x in TagAll(search(e, collections[i]), collections[i]);
    var found := search(e, collections[i]);
    var k :| 0 <= k < |found| && TagAll(found, collections[i])[k] == x;
    assert x.score == found[k].score;
    assert found[k] in found;
  }

  /** With the vector store's own search for every collection, at one similarity
      threshold, every merged and sorted result clears that threshold, whatever the
      client returns. */
  lemma StoreResultsClearThreshold(collections: seq<string>, e: Embeddings.Vector,
                                   client: Option<VectorDb.Client>, threshold: real, x: Hit)
    requires x in SortByScore(Merged(collections, e,
                (e': Embeddings.Vector, c: string) => VectorDb.Found(client, e', threshold, c)))
    ensures x.score.Some? && x.score.value >= threshold
  {
    var search := (e': Embeddings.Vector, c: string) => VectorDb.Found(client, e', threshold, c);
    forall c, h | h in search(e, c)
      ensures h.score.Some? && h.score.value >= threshold
    {
      VectorDb.FoundClearsThreshold(client, e, threshold, c);
    }
    MergedHitsClearThreshold(collections, e, search, threshold, x);
  }

  /** `perform_multi_collection_search`: no embedding, no results; otherwise each
      collection's hits are tagged with its name in place, appended, and the whole
      is sorted best first. */
  method PerformMultiCollectionSearch(reply: Embeddings.EmbeddingReply, collections: seq<string>,
                                      search: (Embeddings.Vector, string) -> seq<Hit>)
    returns (results: seq<Hit>)
    ensures Embeddings.GenerateEmbedding(reply).None? ==> results == []
    ensures Embeddings.GenerateEmbedding(reply).Some? ==>
              results == SortByScore(Merged(collections, Embeddings.GenerateEmbedding(reply).value, search))
  {
    var embedding := Embeddings.GenerateEmbedding(reply);
    if embedding.None? {
      return [];
    }
    var e := embedding.value;
    var allResults: seq<Hit> := [];
    for i := 0 to |collections|
      invariant allResults == Merged(collections[..i], e, search)
    {
      var collection := collections[i];
      var found := search(e, collection);
      ghost var original := found;
      for j := 0 to |found|
        invariant |found| == |original|
        invariant forall k :: 0 <= k < j ==> found[k] == Tag(original[k], collection)
        invariant forall k :: j <= k < |found| ==> found[k] == original[k]
      {
        found := found[j := Tag(found[j], collection)];
      }
      assert found == TagAll(original, collection);
      assert collections[..i + 1][..i] == collections[..i];
      allResults := allResults + found;
    }
    assert collections[..|collections|] == collections;
    results := SortByScore(allResults);
  }

  // ---------------------------------------------------------------------------------
  // build_prompt (the plain-text prompt of the chat module)

  /** One formatted result: the filled template, the extra `k: v` lines, then "\n---". */
  function Entry(h: Hit, showScore: real -> string): string
  {
    Prompt.ResultBody(h, showScore) + "\n---"
  }

  function Entries(results: seq<Hit>, showScore: real -> string): (es: seq<string>)
    ensures |es| == |results|
    ensures forall i :: 0 <= i < |results| ==> es[i] == Entry(results[i], showScore)
  {
    seq(|results|, i requires 0 <= i < |results| => Entry(results[i], showScore))
  }

  /** The prompt text: the header and NO_RESULTS_FOUND without results, otherwise the
      header, a newline and the entries joined by newlines. */
  function PromptText(results: seq<Hit>, promptHeader: string, showScore: real -> string): string
  {
    if results == [] then promptHeader + Constants.NoResultsFound
    else promptHeader + "\n" + Join(Entries(results, showScore), "\n")
  }

  /** `build_prompt`: the entries are formatted one by one into a list, then joined. */
  method BuildPrompt(results: seq<Hit>, promptHeader: string, showScore: real -> string)
    returns (prompt: string)
    ensures prompt == PromptText(results, promptHeader, showScore)
  {
    if results == [] {
      return promptHeader + Constants.NoResultsFound;
    }
    var formatted: seq<string> := [];
    for i := 0 to |results|
      invariant formatted == Entries(results[..i], showScore)
    {
      formatted := formatted + [Entry(results[i], showScore)];
    }
    assert results[..|results|] == results;
    prompt := promptHeader + "\n" + Join(formatted, "\n");
  }

  /** An entry is a block of the budgeted prompt without its final newline. */
  lemma EntryIsBlock(h: Hit, showScore: real -> string)
    ensures Entry(h, showScore) + "\n" == Prompt.SearchResultToStr(h, showScore)
  {
    AppendAssoc(Prompt.ResultBody(h, showScore), "\n---", "\n");
  }

  lemma JoinedEntriesAreBlocks(results: seq<Hit>, showScore: real -> string)
    requires results != []
    ensures Join(Entries(results, showScore), "\n") + "\n" == Concat(Prompt.Blocks(results, Prompt.Render(showScore)))
  {
    var es := Entries(results, showScore);
    var bs := Prompt.Blocks(results, Prompt.Render(showScore));
    forall i | 0 <= i < |es|
      ensures bs[i] == es[i] + "\n"
    {
      EntryIsBlock(results[i], showScore);
    }
    JoinThenSep(es, bs, "\n");
  }

  /** The plain-text prompt of a non-empty result list is the budgeted prompt's evidence
      section with nothing cut, less its final newline. */
  lemma PromptTextIsUncutEvidence(results: seq<Hit>, promptHeader: string, showScore: real -> string)
    requires results != []
    ensures PromptText(results, promptHeader, showScore) + "\n" ==
              promptHeader + "\n" + Concat(Prompt.Blocks(results, Prompt.Render(showScore)))
  {
    JoinedEntriesAreBlocks(results, showScore);
    AppendAssoc(promptHeader + "\n", Join(Entries(results, showScore), "\n"), "\n");
  }

  // ---------------------------------------------------------------------------------
  // append_searched_urls

  /** `str` of an optional URL. */
  function UrlText(url: Option<string>): string
  {
    if url.Some? then url.value else "None"
  }

  /** `result.get('score', 0)` as printed. */
  function ScoreText(h: Hit, showScore: real -> string): string
  {
    if h.score.Some? then showScore(h.score.value) else "0"
  }

  /** The footer line of one URL. */
  function UrlLine(h: Hit, showScore: real -> string): string
  {
    "\U{1F517} " + UrlText(Url(h)) + ", Similarity Score: " + ScoreText(h, showScore) + "\n"
  }

  /** The URLs of the hits, in order. */
  function UrlsOf(results: seq<Hit>): (us: seq<Option<string>>)
    ensures |us| == |results|
  {
    if results == [] then [] else UrlsOf(results[..|results| - 1]) + [Url(results[|results| - 1])]
  }

  /** The hits whose URL was not seen earlier in the list. */
  function FirstSeen(results: seq<Hit>): seq<Hit>
  {
    if results == [] then []
    else
      var p, last := results[..|results| - 1], results[|results| - 1];
      if Url(last) in UrlsOf(p) then FirstSeen(p) else FirstSeen(p) + [last]
  }

  /** The footer lines of the given hits, one after the other. */
  function Lines(hs: seq<Hit>, showScore: real -> string): string
  {
    if hs == [] then "" else Lines(hs[..|hs| - 1], showScore) + UrlLine(hs[|hs| - 1], showScore)
  }

  /** The footer `search_message`: the lines of the hits whose URL was not seen earlier. */
  function SearchMessage(results: seq<Hit>, showScore: real -> string): string
  {
    Lines(FirstSeen(results), showScore)
  }

  lemma UrlsOfSnoc(results: seq<Hit>, i: nat)
    requires i < |results|
    ensures UrlsOf(results[..i + 1]) == UrlsOf(results[..i]) + [Url(results[i])]
  {
    assert results[..i + 1][..i] == results[..i];
  }

  lemma FirstSeenSnoc(results: seq<Hit>, i: nat, showScore: real -> string)
    requires i < |results|
    ensures var p := results[..i];
            if Url(results[i]) in UrlsOf(p) then
              FirstSeen(results[..i + 1]) == FirstSeen(p) && SearchMessage(results[..i + 1], showScore) == SearchMessage(p, showScore)
            else
              FirstSeen(results[..i + 1]) == FirstSeen(p) + [results[i]] &&
              SearchMessage(results[..i + 1], showScore) == SearchMessage(p, showScore) + UrlLine(results[i], showScore)
  {
    var p := results[..i];
    assert results[..i + 1][..i] == p;
    var f := FirstSeen(p) + [results[i]];
    assert f[..|f| - 1] == FirstSeen(p);
  }

  /** The hits kept for the footer carry exactly the de-duplicated URLs, in the order of
      their first occurrence. */
  lemma {:induction false} FirstSeenCarriesDistinctUrls(results: seq<Hit>)
    ensures UrlsOf(FirstSeen(results)) == Distinct(UrlsOf(results))
    decreases |results|
  {
    if results != [] {
      var n := |results| - 1;
      var p, last := results[..n], results[n];
      FirstSeenCarriesDistinctUrls(p);
      UrlsOfSnoc(results, n);
      assert results[..n + 1] == results;
      DistinctAppendOne(UrlsOf(p), Url(last));
      if Url(last) !in UrlsOf(p) {
        var f := FirstSeen(p) + [last];
        assert f[..|f| - 1] == FirstSeen(p);
      }
    }
  }

  /** No results, no footer; any result gives a line (even a hit without a URL prints
      `None`). */
  lemma SearchMessageEmptyIff(results: seq<Hit>, showScore: real -> string)
    ensures SearchMessage(results, showScore) == "" <==> results == []
    ensures Distinct(UrlsOf(results)) == [] <==> results == []
  {
    FirstSeenCarriesDistinctUrls(results);
    if results != [] {
      assert UrlsOf(results)[0] in Distinct(UrlsOf(results));
      var f := FirstSeen(results);
      assert |UrlsOf(f)| > 0;
      assert |UrlLine(f[|f| - 1], showScore)| > 0;
    }
  }

  /** The loop of `append_searched_urls`: each hit whose URL is new adds that URL and
      its footer line. */
  method CollectSearchedUrls(results: seq<Hit>, showScore: real -> string)
    returns (dedupedUrls: seq<Option<string>>, searchMessage: string)
    ensures dedupedUrls == Distinct(UrlsOf(results))
    ensures searchMessage == SearchMessage(results, showScore)
  {
    searchMessage := "";
    dedupedUrls := [];
    for i := 0 to |results|
      invariant dedupedUrls == Distinct(UrlsOf(results[..i]))
      invariant searchMessage == SearchMessage(results[..i], showScore)
    {
      var url := Url(results[i]);
      UrlsOfSnoc(results, i);
      DistinctAppendOne(UrlsOf(results[..i]), url);
      FirstSeenSnoc(results, i, showScore);
      if url !in dedupedUrls {
        searchMessage := searchMessage + UrlLine(results[i], showScore);
        dedupedUrls := dedupedUrls + [url];
      }
    }
    assert results[..|results|] == results;
  }

  /** `append_searched_urls`: collect each URL once with the line of its first hit; the
      API puts the URLs in the reply's `urls` (when it has that attribute), otherwise a
      non-empty footer is appended to the reply's text. */
  method AppendSearchedUrls(results: seq<Hit>, resp: Reply, urlsAsList: bool, showScore: real -> string)
    modifies resp
    ensures var urls := Distinct(UrlsOf(results));
            var message := SearchMessage(results, showScore);
            if urlsAsList && urls != [] then
              && resp.content == old(resp.content)
              && resp.urls == (if old(resp.urls).Some? then Some(urls) else None)
            else
              && resp.urls == old(resp.urls)
              && resp.content == old(resp.content) +
                   (if message != "" then Constants.TopRelatedKnowledge + message else "")
  {
    var dedupedUrls, searchMessage := CollectSearchedUrls(results, showScore);
    if urlsAsList && dedupedUrls != [] {
      if resp.urls.Some? {
        resp.urls := Some(dedupedUrls);
      }
    } else if searchMessage != "" {
      AppendAssoc(resp.content, Constants.TopRelatedKnowledge, searchMessage);
      resp.content := resp.content + Constants.TopRelatedKnowledge + searchMessage;
    }
  }

  // ---------------------------------------------------------------------------------
  // get_similarity_threshold

  /** The user's settings as far as the threshold goes: none (or an empty dict), or a
      settings dict with or without a `search_similarity_threshold`. */
  datatype UserSettings = NoSettings | Settings(threshold: Option<real>)

  /** `get_similarity_threshold`, with the configured default and the suggested minimum
      (`floor`) as parameters. */
  function GetSimilarityThreshold(settings: UserSettings, default: real, floor: real): real
  {
    if settings.NoSettings? then default
    else
      var threshold := settings.threshold.GetOr(default);
      if threshold < floor then (if default < floor then default else floor)
      else if threshold <= 1.0 then threshold
      else 1.0
  }

  /** Without settings the default is returned as configured; with settings and a floor
      of at most 1, the result is at most 1 and at least the floor, unless it is the
      default that is itself below the floor. */
  lemma ThresholdRange(settings: UserSettings, default: real, floor: real)
    requires floor <= 1.0
    ensures var t := GetSimilarityThreshold(settings, default, floor);
            && (settings.NoSettings? ==> t == default)
            && (settings.Settings? ==> t <= 1.0 && (floor <= t || (t == default && default < floor)))
  {
  }

  /** A threshold between the floor and 1 is taken as given. */
  lemma ThresholdKeepsValidChoice(x: real, default: real, floor: real)
    requires floor <= x <= 1.0
    ensures GetSimilarityThreshold(Settings(Some(x)), default, floor) == x
  {
  }

  /** A higher requested threshold never gives a lower effective one. */
  lemma ThresholdMonotone(x: real, y: real, default: real, floor: real)
    requires x <= y && floor <= 1.0
    ensures GetSimilarityThreshold(Settings(Some(x)), default, floor) <=
              GetSimilarityThreshold(Settings(Some(y)), default, floor)
  {
  }

  // ---------------------------------------------------------------------------------
  // _filter_debug_messages and _build_search_content_from_history

  predicate IsDebug(m: Message)
  {
    m.name.GetOr("system") == "debug"
  }

  /** The messages not written by the debug author, in order. */
  function WithoutDebug(ms: seq<Message>): seq<Message>
  {
    if ms == [] then []
    else (if IsDebug(ms[0]) then [] else [ms[0]]) + WithoutDebug(ms[1..])
  }

  /** `_filter_debug_messages`: a falsy history ('' or an empty list or nothing) is
      returned as it is. */
  function FilterDebugMessages(history: Stored): (r: Stored)
    ensures !Truthy(history) ==> r == history
    ensures Truthy(history) ==> r.Thread?
  {
    if Truthy(history) then Thread(WithoutDebug(history.msgs)) else history
  }

  /** Exactly the non-debug messages stay. */
  lemma {:induction false} WithoutDebugMembers(ms: seq<Message>)
    ensures forall m :: m in WithoutDebug(ms) <==> m in ms && !IsDebug(m)
    decreases |ms|
  {
    if ms != [] {
      WithoutDebugMembers(ms[1..]);
      assert ms == [ms[0]] + ms[1..];
    }
  }

  /** Order is kept: filtering a concatenation filters each part. */
  lemma {:induction false} WithoutDebugAppend(a: seq<Message>, b: seq<Message>)
    ensures WithoutDebug(a + b) == WithoutDebug(a) + WithoutDebug(b)
    decreases |a|
  {
    if a != [] {
      WithoutDebugAppend(a[1..], b);
      assert (a + b)[1..] == a[1..] + b;
      AppendAssoc(if IsDebug(a[0]) then [] else [a[0]], WithoutDebug(a[1..]), WithoutDebug(b));
    } else {
      assert a + b == b;
    }
  }

  /** Filtering twice is filtering once. */
  lemma {:induction false} WithoutDebugIdempotent(ms: seq<Message>)
    ensures WithoutDebug(WithoutDebug(ms)) == WithoutDebug(ms)
    decreases |ms|
  {
    if ms != [] {
      var lead := if IsDebug(ms[0]) then [] else [ms[0]];
      WithoutDebugIdempotent(ms[1..]);
      WithoutDebugAppend(lead, WithoutDebug(ms[1..]));
      if lead != [] {
        assert WithoutDebug(lead) == lead + WithoutDebug(lead[1..]);
        assert lead[1..] == [];
      }
    }
  }

  /** The text searched for: `"\n" + content` of every user message, in order. */
  function SearchContent(ms: seq<Message>): string
  {
    if ms == [] then ""
    else
      var last := ms[|ms| - 1];
      SearchContent(ms[..|ms| - 1]) + (if last.role == User then "\n" + last.content else "")
  }

  lemma {:induction false} SearchContentAppend(a: seq<Message>, b: seq<Message>)
    ensures SearchContent(a + b) == SearchContent(a) + SearchContent(b)
    decreases |b|
  {
    if b == [] {
      assert a + b == a;
    } else {
      var n := |b| - 1;
      SearchContentAppend(a, b[..n]);
      assert (a + b)[..|a + b| - 1] == a + b[..n];
      var tail := if b[n].role == User then "\n" + b[n].content else "";
      AppendAssoc(SearchContent(a), SearchContent(b[..n]), tail);
    }
  }

  /** One message contributes its text after a newline when the user wrote it, and
      nothing otherwise. */
  lemma SearchContentSingle(m: Message)
    ensures SearchContent([m]) == if m.role == User then "\n" + m.content else ""
  {
    assert [m][..0] == [];
  }

  /** `_build_search_content_from_history`. */
  method BuildSearchContentFromHistory(history: Stored) returns (content: string)
    ensures content == if history.Thread? then SearchContent(history.msgs) else ""
  {
    content := "";
    if Truthy(history) {
      var ms := history.msgs;
      for i := 0 to |ms|
        invariant content == SearchContent(ms[..i])
      {
        assert ms[..i + 1][..i] == ms[..i];
        if ms[i].role == User {
          content := content + "\n" + ms[i].content;
        }
      }
      assert ms[..|ms|] == ms;
    }
  }

  // ---------------------------------------------------------------------------------
  // check_message_length

  /** The decision of `check_message_length` on the token count (a failure is the
      tokenizer's HTTP error); `tooLongText` is the fixed message about lengthy input. */
  function CheckMessageLength(tokens: Result<int, string>, maxContext: int, tooLongText: string): (r: (bool, string))
    ensures r.0 <==> tokens.Success? && tokens.value <= maxContext
    ensures r.0 ==> r.1 == ""
    ensures tokens.Failure? ==> r.1 == Constants.TokenizerFailureText
    ensures tokens.Success? && tokens.value > maxContext ==> r.1 == tooLongText
  {
    if tokens.Failure? then (false, Constants.TokenizerFailureText)
    else if tokens.value > maxContext then (false, tooLongText)
    else (true, "")
  }
}
