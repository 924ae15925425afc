# A verified model of the RAG chat assistant's core

This project models, in Dafny, the logic of a retrieval-augmented chat assistant that
sits between its network calls:

- **Retrieval.** One embedding of the user's text searches every knowledge collection
  of a Qdrant vector store (`src/vectordb.py`). The store keeps the points whose
  similarity clears the threshold. The chat handler (`src/chat.py`) tags each hit with
  its collection, merges the collections, and sorts the hits best first with a stable
  sort.
- **Prompt assembly.** Each hit is rendered as a text block (`src/prompt.py`). Blocks
  are appended to the user turn while the running length stays within
  `ctx * 3 * 0.75` characters. The first block that does not fit is cut by the
  overshoot, wrapped in the truncation marker, and ends the evidence. The user's own
  text always closes the turn in full. A non-empty history is reused and grown in
  place; an empty one starts a new thread with the system prompt.
- **Chat helpers.** The chat module also holds:
  - the older string-only prompt;
  - the "Top related knowledge" footer, which lists each URL once;
  - the similarity-threshold clamp;
  - the debug-message filter and the search-content builder;
  - the token-count decision.
- **Embeddings and re-ranking** (`src/embeddings.py`). This covers the choice of the
  embedding vector, the status handling of the tokenizer and re-rank replies, the
  chunking of search content for the re-rank model, and the pick of the re-rank score.
- **Generation** (`src/generation.py`). The thread around the completion call:
  - seeding with the system prompt (with `PRODUCT_NAME` substituted);
  - the user turn, and the assistant turn on success;
  - the `keep_history` toggle;
  - the concatenation of streamed tokens;
  - the error answer, and the history reset on a context overflow.

Modules: `Wrappers` (Option, Result), `Seqs` (sequence helpers), `Constants` (the fixed
texts), `Hits` (a hit dictionary), `Messages` (messages, the in-place message list, the
reply object, the session), `Prompt`, `Chat`, `VectorDb`, `Embeddings`, `Generation`.

How the model represents the source:

- **Network replies are inputs.** Each reply from a network provider is a value given
  to the model:
  - the embedding reply;
  - a Qdrant `Client` value saying what `search` and `get_collections` return;
  - the HTTP status and body of `/tokenize` and `/rerank`;
  - the streamed or whole completion, with the `OpenAIError` it may raise.
- **Dictionaries.** A hit is a `Hit` datatype. It holds the four keys the prompt
  template names, plus the other keys in insertion order.
- **Lists that grow in place.** Lists that the source shares and grows are
  `MessageList` objects, so that reuse of the caller's history is visible as aliasing.
- **Loops.** Loops are methods proved against specification functions:
  - `AssembleEvidence` against `Assemble`;
  - `Search` against `Passing`;
  - `GetCollections` against `Distinct`;
  - `CollectSearchedUrls` against `Distinct` and `SearchMessage`;
  - `StreamTokens` against `StreamText`.
- **Floating point.** The budget `ctx * 3 * 0.75` is exact: it is `9/4` of the context
  size. `int()` truncates toward zero (`PyInt`). The method `CheckBudget` does the
  float check as the source writes it and proves it equal to the integer check the
  specification uses.

Behaviour of the source that the model keeps as written:

- **Sub-character overshoot.** When a block overshoots the budget by less than one
  character, `trim_len` is `0`, and `chunk[:-0]` is the empty string in Python. The
  whole block is then dropped, not kept (`Prompt.SubCharacterOverflowDropsBlock`).
- **Re-rank score.** The doc-comment of `get_rerank_score` promises the maximum
  re-rank score over the chunks. The code returns the first result's score.
  `Embeddings.MaxScore` defines the promised maximum on its own terms.
  `Embeddings.PickScoreIsMaxIff` proves the pick equals it exactly when the service
  lists the best result first. `Embeddings.PickScoreIsFirstNotMax` gives results where
  the two differ.
- **History reset.** A context overflow resets the stored history to the empty string
  `''`, not to an empty list (`Cleared`). Every reader treats it as falsy, so the next
  turn starts a new thread.
- **Non-200 success codes.** A 2xx status other than 200 falls through
  `raise_for_status` and yields `0` tokens or a `0.0` score.
- **A zero chunk size.** It makes `range` raise. A negative chunk size gives no chunks.

Where the source is inconsistent, the model takes a parameter:

- `chat.py:49-51` calls `vector_store.search` with four arguments, but
  `vectordb.py:74-76` takes three. The chat side takes the per-collection search as a
  function of the embedding and the collection. `VectorDb.Found` is the store's
  behaviour, and `Chat.StoreResultsClearThreshold` plugs it in as that function.
- `chat.py:13` imports `SUGGESTED_MINIMUM_SIMILARITY_THRESHOLD` from `constants.py`,
  which does not define it; `config.py:7` does (0.3). The floor is a parameter of
  `GetSimilarityThreshold`.
- `config.generative_model_max_context` and `config.reranking_model_max_context` are
  not defined in `config.py`. Both are parameters (`maxContext`).
- `prompt.py:13` imports `get_system_prompt_per_profile`, which `generation.py` does
  not define. The system prompt is a parameter.

## Model

| member | source | states |
|---|---|---|
| Prompt.SearchResultToStr | src/prompt.py:27-47 | definition: the filled template with NO VALUE for missing fields, the other keys as `k: v` lines in dictionary order, then the separator; its shape is stated by `SearchResultToStrShape` |
| Prompt.SearchResultToStrShape | src/prompt.py:27-47 | a result block starts with the template's kind and text lines, with NO VALUE for a missing field, and ends with the "\n---\n" separator |
| Prompt.OverBudgetIsFloatCheck | src/prompt.py:102-126 | the integer check `4*current > 9*ctx` holds exactly when `current_prompt_len > ctx * 3 * 0.75` |
| Prompt.TrimLen | src/prompt.py:129 | the number of characters cut is the overshoot rounded down to whole characters: non-negative, at most the overshoot, and less than one character below it |
| Prompt.TrimLenIsPyInt | src/prompt.py:129 | that count is Python's `int(current_prompt_len - approx_max_chars)`, truncated toward zero |
| Prompt.PySliceTo | src/prompt.py:131 | `s[:e]` is a prefix of `s`; a negative end drops `-e` characters from the back, clamped at empty |
| Prompt.CheckBudget | src/prompt.py:122-129 | the float budget check and `trim_len` agree with the integer check and `TrimLen` |
| Prompt.AssembleKept | src/prompt.py:117-142 | the blocks kept whole are the first `kept` blocks, in order; without a cut, that is every block |
| Prompt.AssembleCutAt | src/prompt.py:122-135 | with a cut, block `kept` is the first whose check failed, and the cut text is that block sliced by the overshoot its check saw |
| Prompt.AssembleTruncatedIff | src/prompt.py:122-139 | the check fires for some block exactly when the running length, all blocks and the user text exceed the budget |
| Prompt.AssembleWithinBudget | src/prompt.py:122-142 | after each block kept whole, the running length plus the user text is within the budget |
| Prompt.AssembleSlack | src/prompt.py:122-142 | if the base and the user text fit, the kept blocks plus the cut remainder overshoot the budget by less than one character |
| Prompt.SubCharacterOverflowDropsBlock | src/prompt.py:129-131 | with a budget of 2.25 characters, the 3-character block is cut to nothing (`chunk[:-0]`), leaving only the empty truncation marker |
| Prompt.AssembleCutShape | src/prompt.py:126-139 | a cut evidence section is the blocks before the first failed check, whole, then the marker around that block's remainder |
| Prompt.Assemble | src/prompt.py:117-139 | definition: the blocks kept whole while the check passes, and the first block whose check fails, cut by its overshoot; stated by the `Assemble*` lemmas above |
| Prompt.FinalUserTurn | src/prompt.py:102-149 | definition: the no-results turn without hits, otherwise the evidence turn of the hits' blocks; stated by `FinalUserTurnFraming` and the `Evidence*` lemmas |
| Prompt.FinalUserTurnFraming | src/prompt.py:106-149 | the user turn ends with "\n" + the user's text; without results it is header + NO_RESULTS_FOUND + "\n" + text, unflagged; with results it starts with header + "\n" |
| Prompt.EvidenceTruncatedIff | src/prompt.py:122-139 | the returned flag is true exactly when the base length, the header line, all blocks and the user text exceed `ctx * 3 * 0.75` |
| Prompt.EvidenceAllKept | src/prompt.py:115-145 | when nothing overflows, the turn is header + "\n" + every block in order + "\n" + the user's text |
| Prompt.EvidenceCut | src/prompt.py:115-145 | with a cut, some block `k` failed the check after all earlier blocks passed, and the turn is header, blocks before `k`, the marker around `k`'s remainder, then "\n" + the user's text; no later block is added |
| Prompt.EvidenceLengthBound | src/prompt.py:102-145 | when the base, the header line and the user text fit, the final turn exceeds the budget by less than the marker plus two characters |
| Prompt.AssembleEvidence | src/prompt.py:115-145 | the loop with its `break` builds exactly the specified evidence turn and flag |
| Prompt.BuildPrompt | src/prompt.py:82-151 | an empty history gives a fresh thread with the system prompt, a non-empty one is extended in place; exactly one user turn, the specified one, is appended; the flag and the warning follow the cut |
| Chat.SortByScore | src/chat.py:56 | definition: a stable insertion sort by descending score (a missing score as 0); stated by `SortByScoreSortsAndPermutes` and `SortByScoreStable` |
| Chat.SortByScoreSortsAndPermutes | src/chat.py:56 | the sort orders hits by score descending (missing score as 0) and is a permutation |
| Chat.SortByScoreStable | src/chat.py:56 | hits of equal score keep their relative order |
| Chat.TagAll | src/chat.py:52-53 | each hit of a collection is tagged with that collection's name, positions kept |
| Chat.Merged | src/chat.py:47-54 | definition: the tagged hits of each collection, collection after collection; stated by `MergedFromCollections` and `MergedCoversCollections` |
| Chat.MergedFromCollections | src/chat.py:47-54 | every merged hit is a tagged hit of one of the collections and carries that collection's name |
| Chat.MergedCoversCollections | src/chat.py:47-54 | every hit of every collection appears, tagged, among the merged hits |
| Chat.SearchResultsAreSortedMerge | src/chat.py:47-56 | the result is sorted best first, a permutation of the merged hits, and stable |
| Chat.MergedHitsClearThreshold | src/chat.py:48-56 | when every collection's hits clear the threshold, so does every returned hit |
| Chat.StoreResultsClearThreshold | src/chat.py:47-56 | with the vector store's own `search` (`VectorDb.Found`) for every collection, every merged and sorted result clears the threshold, whatever the client returns |
| Chat.PerformMultiCollectionSearch | src/chat.py:33-56 | no embedding gives no results without searching; otherwise the loop's in-place tagging and merging give the sorted merge |
| Chat.BuildPrompt | src/chat.py:59-96 | the plain-text prompt: header + NO_RESULTS_FOUND without results, else header + "\n" + the entries joined by "\n" |
| Chat.EntryIsBlock | src/chat.py:76-92 | an entry of the plain-text prompt is the budgeted prompt's block without its final newline |
| Chat.JoinedEntriesAreBlocks | src/chat.py:73-96 | the entries joined by newlines, plus a newline, are all the blocks concatenated |
| Chat.PromptTextIsUncutEvidence | src/chat.py:59-96 | the plain-text prompt plus a newline is the budgeted prompt's evidence with nothing cut |
| Chat.SearchMessage | src/chat.py:109-117 | definition: one footer line for each hit whose URL was not seen earlier, in order; stated by `FirstSeenCarriesDistinctUrls`, `SearchMessageEmptyIff` and `CollectSearchedUrls` |
| Chat.FirstSeenCarriesDistinctUrls | src/chat.py:109-118 | the hits that write footer lines carry exactly the distinct URLs, in first-occurrence order |
| Chat.SearchMessageEmptyIff | src/chat.py:109-123 | the footer is empty, and there are no URLs, exactly when there are no results |
| Chat.CollectSearchedUrls | src/chat.py:109-118 | the loop collects each URL once, in first-occurrence order, with the footer line of its first hit |
| Chat.AppendSearchedUrls | src/chat.py:99-123 | with `urls_as_list` and some URL, `urls` is replaced where the reply has it and the text is untouched; otherwise a non-empty footer is appended under the heading and `urls` is kept |
| Chat.GetSimilarityThreshold | src/chat.py:369-392 | definition: the default without settings; otherwise the requested value (or the default) clamped to the floor and 1.0; stated by `ThresholdRange`, `ThresholdKeepsValidChoice` and `ThresholdMonotone` |
| Chat.ThresholdRange | src/chat.py:369-392 | no settings gives the default; otherwise the result is at most 1 and at least the floor, unless it is the default and the default is below the floor |
| Chat.ThresholdKeepsValidChoice | src/chat.py:384-392 | a requested threshold between the floor and 1 is used as given |
| Chat.ThresholdMonotone | src/chat.py:380-392 | a higher requested threshold never gives a lower effective one |
| Chat.FilterDebugMessages | src/chat.py:235-244 | a falsy history is returned unchanged; a non-empty one becomes a list |
| Chat.WithoutDebug | src/chat.py:239-242 | definition: the messages whose `name` (default "system") is not "debug", in order; stated by `WithoutDebugMembers`, `WithoutDebugAppend` and `WithoutDebugIdempotent` |
| Chat.WithoutDebugMembers | src/chat.py:239-242 | a message is kept exactly when it is not authored as "debug" (an unnamed message counts as "system") |
| Chat.WithoutDebugAppend | src/chat.py:240-242 | the filter keeps order: it distributes over concatenation |
| Chat.WithoutDebugIdempotent | src/chat.py:240-242 | filtering twice is filtering once |
| Chat.SearchContent | src/chat.py:228-231 | definition: "\n" + content of every user message, in order; stated by `SearchContentAppend` and `SearchContentSingle` |
| Chat.SearchContentAppend | src/chat.py:225-232 | the search content of a concatenation is the two contents, in order |
| Chat.SearchContentSingle | src/chat.py:229-231 | a user message adds "\n" + its content; any other message adds nothing |
| Chat.BuildSearchContentFromHistory | src/chat.py:225-232 | the loop yields the search content of the history, or "" when there is none |
| Chat.CheckMessageLength | src/chat.py:145-173 | accepted exactly when the count is known and within the limit; a tokenizer error gives the fixed retry text; too many tokens gives the lengthy-input text |
| Embeddings.GenerateEmbedding | src/embeddings.py:26-49 | a vector exactly when the reply has data items, and then the first item's vector; None on no response, empty data or a provider error |
| Embeddings.StatusOutcome | src/embeddings.py:87-93 | 200 reads the body; a status outside 2xx raises; any other 2xx falls through to the final return |
| Embeddings.GetNumTokens | src/embeddings.py:84-93 | the token count on 200, 0 on another 2xx, an HTTP error otherwise |
| Embeddings.MaxChunkSize | src/embeddings.py:130 | the chunk size is the floor of half the re-rank context |
| Embeddings.Chunks | src/embeddings.py:131-134 | definition: consecutive slices of `size` characters, the last one shorter; stated by `ChunksConcat`, `ChunkSizes`, `ChunkCount` and `ChunkAt` |
| Embeddings.ChunksConcat | src/embeddings.py:130-134 | the chunks concatenate back to the search content |
| Embeddings.ChunkSizes | src/embeddings.py:130-134 | no chunk is empty or longer than the size, and all but the last have exactly that size |
| Embeddings.ChunkCount | src/embeddings.py:130-134 | there are ceil(len / size) chunks: none for empty content |
| Embeddings.ChunkAt | src/embeddings.py:131-134 | chunk `k` is `s[k*size:(k+1)*size]`, clamped to the content |
| Embeddings.RerankChunks | src/embeddings.py:130-134 | a zero chunk size raises; a negative one gives no chunks; a positive one gives the chunks |
| Embeddings.PickScore | src/embeddings.py:146-150 | no results give 0.0; otherwise the first result's relevance score, or 0.0 when it has none |
| Embeddings.GetRerankScore | src/embeddings.py:127-154 | the zero-step error, or the status outcome of the re-rank reply with the picked score |
| Embeddings.MaxScore | src/embeddings.py:106-108 | definition: the maximum score over the results (a missing score as 0.0), the value the doc-comment promises; stated by `MaxScoreIsMax` |
| Embeddings.MaxScoreIsMax | src/embeddings.py:106-108 | for a non-empty result list, the maximum is at least every result's score and equals one of them |
| Embeddings.PickScoreIsMaxIff | src/embeddings.py:106-108 | for non-empty results, the first score the code returns equals the promised maximum exactly when no later result scores higher than the first |
| Embeddings.PickScoreIsFirstNotMax | src/embeddings.py:148-150 | for results [0.1, 0.9] the pick is 0.1 while the maximum is 0.9 |
| VectorDb.ToHitFields | src/vectordb.py:102-109 | a returned hit carries exactly the point's score, kind, text, components and url, and is a well-formed dictionary |
| VectorDb.Passing | src/vectordb.py:100-110 | definition: the points scoring at least the threshold, as hits, in the client's order; stated by `PassingAppend`, `PassingMembers`, `PassingClearsThreshold` and `PassingExample` |
| VectorDb.Found | src/vectordb.py:89-115 | definition: no hits without a client or on an ApiException, otherwise the passing points; stated by `FoundClearsThreshold` |
| VectorDb.PassingAppend | src/vectordb.py:100-110 | the threshold filter distributes over concatenation, so the client's order is kept |
| VectorDb.PassingMembers | src/vectordb.py:100-110 | a hit is returned exactly when it comes from a point whose score is at least the threshold |
| VectorDb.PassingClearsThreshold | src/vectordb.py:101 | every returned hit has a score of at least the threshold |
| VectorDb.FoundClearsThreshold | src/vectordb.py:89-115 | whatever the client does, including no client or an ApiException, every returned hit clears the threshold |
| VectorDb.PassingExample | src/vectordb.py:100-110 | with threshold 0.8, points scored 0.9, 0.85 and 0.7 give back the first two, in order |
| VectorDb.CollectionNames | src/vectordb.py:61-72 | the names have no duplicates and are exactly the listed names; a failed listing gives none |
| Seqs.DistinctKeepsFirstOccurrenceOrder | src/vectordb.py:65-67 | the deduplicated names keep the order of their first occurrence |
| VectorDb.QdrantVectorStore.constructor | src/vectordb.py:45-51 | the store holds the given client |
| VectorDb.QdrantVectorStore.GetCollections | src/vectordb.py:54-72 | the loop yields the listed names deduplicated in order, or none when listing raised |
| VectorDb.QdrantVectorStore.Search | src/vectordb.py:74-115 | no client or an ApiException gives no hits; otherwise the loop yields the points clearing the threshold, as hits, in the client's order |
| Hits.SetField | src/chat.py:53 | after `r['collection'] = c`, the key maps to `c` and every other key keeps its value |
| Hits.SetFieldKeys | src/chat.py:53 | an existing key keeps its place in the dictionary, a new one goes last |
| Hits.Tag | src/chat.py:53 | tagging sets the collection and changes nothing else of the hit, its URL included |
| Hits.TagKeepsWellFormed | src/chat.py:53 | a tagged dictionary is still a dictionary with no duplicate or reserved key |
| Seqs.ReplaceAll | src/generation.py:63-65 | `replace` leaves text without the placeholder unchanged and substitutes an occurrence at the front |
| Seqs.ReplaceAllSkipsPlain | src/generation.py:63-65 | text in which no occurrence starts is copied unchanged, and replacement continues after it |
| Seqs.ReplaceAllAt | src/generation.py:63-65 | every occurrence is replaced: the first occurrence after placeholder-free text becomes the replacement and the rest is replaced in turn |
| Seqs.ReplaceAllSelf | src/generation.py:63-65 | replacing the placeholder by itself gives the text back |
| Generation.SystemPromptFor | src/generation.py:63-65 | definition: the system prompt with every "PRODUCT_NAME" replaced by the product name; stated by the `Seqs.ReplaceAll*` lemmas and `SystemPromptExample` |
| Generation.SystemPromptExample | src/generation.py:63-65 | "Hi PRODUCT_NAME!" becomes "Hi " + product name + "!" |
| Messages.MessageList.Append | src/generation.py:70 | `append` adds the message at the end of the shared list |
| Generation.ExtractModelIds | src/generation.py:23-31 | the model ids in the provider's order, one per model; none when there are none |
| Generation.ErrorText | src/generation.py:34-39 | a context overflow reads as the new-thread text; any other error as its `str` |
| Generation.HandleContextSizeLimit | src/generation.py:34-39 | an overflow also resets the stored history to ''; otherwise the session is untouched |
| Generation.StreamText | src/generation.py:72-79 | definition: each chunk's first delta content, or nothing, in order; stated by `StreamTextAppend`, `SilentChunkIgnored` and `StreamTextIsConcat` |
| Generation.StreamTextAppend | src/generation.py:72-79 | the streamed text of consecutive chunk runs is their texts in order |
| Generation.SilentChunkIgnored | src/generation.py:77-79 | a chunk without choices, or with empty content, adds nothing |
| Generation.StreamTextIsConcat | src/generation.py:72-79 | the streamed text is the concatenation of each chunk's first delta content |
| Generation.StreamTokens | src/generation.py:72-79 | the loop appends exactly the streamed text to the answer and leaves its `urls` alone |
| Generation.GetResponse | src/generation.py:42-99 | an empty history gives a fresh thread seeded with the substituted system prompt, a non-empty one grows in place; the user turn follows the base; on success one assistant turn with the answer follows and the session keeps the thread unless `keep_history` is false; on error no assistant turn, the answer is the error text and an overflow clears the stored history; the result is true exactly on error |

## Left out

- Network and SDK calls (OpenAI embeddings and chat completions, the Qdrant client, the `/tokenize` and `/rerank` posts) are not code here: what each returns is an input value.
- Model discovery (`discover_*_model_names`) is a call into the providers; only `extract_model_ids` is modelled.
- Async iteration, logging, message sending and the Chainlit session plumbing are not modelled.
- `handle_user_message`, `print_debug_content` and `update_msg_count` are not part of this model.
- `app.py`, `api.py`, `auth.py`, `conversation.py`, `mongodb.py`, `feedback.py` and `settings.py` are not part of this model.
- Floating point: scores and thresholds are reals and `ctx * 3 * 0.75` is exact; IEEE rounding is not modelled.
- Prompt.BuildPrompt: the message that `print_truncated_warning` sends is reported only as the flag `warned` (a cut, and the caller is not the API).
- Prompt.BuildPrompt: `len(str(full_prompt))` depends on Python's `repr` of a list of dicts; it is the parameter `reprLen`.
- Prompt.SearchResultToStrShape: Python's `str` of a float score is the parameter `showScore`; the other keys' values are strings.
- Chat.CheckMessageLength: the lengthy-input text embeds `round(ctx * 3, -2)`; it is the parameter `tooLongText`.
- Chat.PerformMultiCollectionSearch: the per-collection search is a function of the embedding and the collection, because the call in `chat.py` and the definition in `vectordb.py` disagree on the arguments; `top_n` is therefore not modelled.
- Chat.AppendSearchedUrls: the footer line's link emoji is U+1F517; the source file shows it mis-decoded.
- VectorDb.QdrantVectorStore.Search: a payload missing `url`, `kind`, `text` or `components` raises `KeyError` in the source; payloads here always carry the four keys.
- VectorDb.QdrantVectorStore.GetCollections: requires a client; the source calls the client unconditionally, so a store without one raises there, outside the `ApiException` handler.
- Generation.GetResponse: requires a whole completion to have at least one choice; without one the source raises `IndexError`, which nothing catches.
- Generation.GetResponse: the session stores a snapshot (`Stored`) of the thread rather than a reference to the list; nothing in the modelled core mutates the list after storing it.
