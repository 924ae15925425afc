/** Generation (src/generation.py): the conversation thread around the chat-completion
    call. The thread is seeded with the system prompt when empty, grows by the user's
    turn and, on success, by the assistant's answer; the answer is streamed token by
    token or read whole; a provider error becomes the answer's text, and a context-length
    overflow also clears the stored history. The provider's replies are inputs. */
module Generation {
  import opened Wrappers
  import opened Seqs
  import opened Messages
  import Constants

  /** One model as the provider lists it. */
  datatype Model = Model(id: string)

  /** `extract_model_ids`: the listed models' ids, in the provider's order; no ids when
      none are listed. */
  method ExtractModelIds(models: seq<Model>) returns (modelIds: seq<string>)
    ensures |modelIds| == |models|
    ensures forall i :: 0 <= i < |models| ==> modelIds[i] == models[i].id
  {
    modelIds := [];
    for i := 0 to |models|
      invariant |modelIds| == i
      invariant forall k :: 0 <= k < i ==> modelIds[k] == models[k].id
    {
      modelIds := modelIds + [models[i].id];
    }
    if modelIds == [] {
      return [];
    }
  }

  /** An `OpenAIError`: its `message` attribute and its `str`. */
  datatype ProviderError = ProviderError(message: string, text: string)

  /** Whether the error is the provider's context-length overflow. */
  predicate IsContextOverflow(err: ProviderError)
  {
    Contains(err.message, Constants.ContextOverflowMarker)
  }

  /** The error text `_handle_context_size_limit` returns. */
  function ErrorText(err: ProviderError): (r: string)
    ensures IsContextOverflow(err) ==> r == Constants.NewThreadText
    ensures !IsContextOverflow(err) ==> r == err.text
  {
    if IsContextOverflow(err) then Constants.NewThreadText else err.text
  }

  /** `_handle_context_size_limit`: an overflow resets the stored history to '' and asks
      for a new thread; any other error leaves the session alone and reads as itself. */
  method HandleContextSizeLimit(err: ProviderError, session: Session) returns (errMsg: string)
    modifies session
    ensures errMsg == ErrorText(err)
    ensures session.history == if IsContextOverflow(err) then Cleared else old(session.history)
  {
    if Contains(err.message, Constants.ContextOverflowMarker) {
      session.history := Cleared;
      return Constants.NewThreadText;
    }
    return err.text;
  }

  /** The answer's text after an error. */
  function ErrorReply(errMsg: string): string
  {
    Constants.GenerationErrorPrefix + errMsg + "."
  }

  /** The system prompt with every "PRODUCT_NAME" replaced by the product's name. */
  function SystemPromptFor(systemPrompt: string, productName: string): string
  {
    ReplaceAll(systemPrompt, Constants.ProductNamePlaceholder, productName)
  }

  /** The placeholder inside a prompt is replaced and the text around it is kept. */
  lemma SystemPromptExample(productName: string)
    ensures SystemPromptFor("Hi PRODUCT_NAME!", productName) == "Hi " + productName + "!"
  {
    var pat := Constants.ProductNamePlaceholder;
    assert "Hi PRODUCT_NAME!" == "Hi " + pat + "!";
    forall i | 0 <= i < 3
      ensures !(pat <= ("Hi " + pat + "!")[i..])
    {
      assert ("Hi " + pat + "!")[i] != pat[0];
    }
    ReplaceAllAt("Hi ", "!", pat, productName);
  }

  /** One streamed chunk: the delta content of each of its choices. */
  datatype StreamChunk = StreamChunk(choices: seq<Option<string>>)

  /** A streamed completion: the chunks it delivered, then possibly the error that ended
      it (an error raised by the call itself delivers no chunk). */
  datatype StreamReply = StreamReply(chunks: seq<StreamChunk>, failure: Option<ProviderError>)

  /** A completion read whole: the message content of each choice, or the error raised. */
  datatype WholeReply = Answer(choices: seq<Option<string>>) | Failed(error: ProviderError)

  /** The token a chunk contributes: the first choice's delta content; nothing for a
      chunk without choices or a missing content. */
  function Token(c: StreamChunk): string
  {
    if |c.choices| > 0 then c.choices[0].GetOr("") else ""
  }

  /** The streamed text: the chunks' tokens in order. */
  function StreamText(chunks: seq<StreamChunk>): string
  {
    if chunks == [] then [] else StreamText(chunks[..|chunks| - 1]) + Token(chunks[|chunks| - 1])
  }

  /** Streaming is compositional: the text of two runs of chunks is the two texts. */
  lemma {:induction false} StreamTextAppend(a: seq<StreamChunk>, b: seq<StreamChunk>)
    ensures StreamText(a + b) == StreamText(a) + StreamText(b)
    decreases |b|
  {
    if b == [] {
      assert a + b == a;
    } else {
      var n := |b| - 1;
      StreamTextAppend(a, b[..n]);
      assert (a + b)[..|a + b| - 1] == a + b[..n];
      AppendAssoc(StreamText(a), StreamText(b[..n]), Token(b[n]));
    }
  }

  /** A chunk without choices, or whose delta has no content, adds nothing: the text is
      the same as without it. */
  lemma SilentChunkIgnored(a: seq<StreamChunk>, c: StreamChunk, b: seq<StreamChunk>)
    requires c.choices == [] || c.choices[0].GetOr("") == ""
    ensures StreamText(a + [c] + b) == StreamText(a + b)
  {
    StreamTextAppend(a + [c], b);
    StreamTextAppend(a, b);
    assert (a + [c])[..|a + [c]| - 1] == a;
  }

  /** Each token is the first choice's content of a chunk, and the text is exactly the
      tokens in order: the text of a chunk list with all tokens given. */
  lemma {:induction false} StreamTextIsConcat(chunks: seq<StreamChunk>, tokens: seq<string>)
    requires |tokens| == |chunks|
    requires forall i :: 0 <= i < |chunks| ==> tokens[i] == Token(chunks[i])
    ensures StreamText(chunks) == Concat(tokens)
    decreases |chunks|
  {
    if chunks != [] {
      var n := |chunks| - 1;
      StreamTextIsConcat(chunks[..n], tokens[..n]);
    }
  }

  /** What the completion call produced, given what the answer held before: with
      streaming, the streamed tokens after the previous content (or the error that cut
      the stream); without, the first choice's content (or the error). */
  function Generated(stream: bool, streamReply: StreamReply, wholeReply: WholeReply, before: string)
    : Result<string, ProviderError>
    requires !stream && wholeReply.Answer? ==> wholeReply.choices != []
  {
    if stream then
      if streamReply.failure.Some? then Failure(streamReply.failure.value)
      else Success(before + StreamText(streamReply.chunks))
    else
      match wholeReply
      case Failed(e) => Failure(e)
      case Answer(choices) => Success(choices[0].GetOr(""))
  }

  /** The streaming loop of `get_response`: each chunk with a choice adds its delta's
      content, when there is some, to the answer (`stream_token`). */
  method StreamTokens(response: Reply, chunks: seq<StreamChunk>)
    modifies response
    ensures response.content == old(response.content) + StreamText(chunks)
    ensures response.urls == old(response.urls)
  {
    for i := 0 to |chunks|
      invariant response.content == old(response.content) + StreamText(chunks[..i])
      invariant response.urls == old(response.urls)
    {
      var streamResp := chunks[i];
      assert chunks[..i + 1][..i] == chunks[..i];
      AppendAssoc(old(response.content), StreamText(chunks[..i]), Token(streamResp));
      if |streamResp.choices| > 0 {
        var token := streamResp.choices[0].GetOr("");
        if token != "" {
          response.content := response.content + token;
        } else {
          assert response.content + token == response.content;
        }
      } else {
        assert response.content + Token(streamResp) == response.content;
      }
    }
    assert chunks[..|chunks|] == chunks;
  }

  /** `get_response`. `history` is the list held under 'message_history' (null when the
      key is missing or holds ''); a non-empty list is the thread itself and grows in
      place, an empty one is replaced by a fresh thread holding the system prompt. The
      user's turn goes in before the call, the answer after it only on success. The
      session keeps the thread when `keep_history` (default true) holds; an error
      becomes the answer's text. The result is true exactly on error. */
  method GetResponse(history: MessageList?, keepHistory: Option<bool>, userContent: string,
                     response: Reply, session: Session, systemPrompt: string, productName: string,
                     stream: bool, streamReply: StreamReply, wholeReply: WholeReply)
    returns (isError: bool, thread: MessageList)
    requires !stream && wholeReply.Answer? ==> wholeReply.choices != []
    modifies history, response, session
    ensures var reused := history != null && old(history.items) != [];
            var base := if reused then old(history.items) else [SystemMessage(SystemPromptFor(systemPrompt, productName))];
            var outcome := Generated(stream, streamReply, wholeReply, old(response.content));
            && (reused ==> thread == history)
            && (!reused ==> fresh(thread) && (history != null ==> history.items == old(history.items)))
            && isError == outcome.Failure?
            && response.urls == old(response.urls)
            && (outcome.Success? ==>
                  && thread.items == base + [UserMessage(userContent), AssistantMessage(outcome.value)]
                  && response.content == outcome.value
                  && session.history == if keepHistory.GetOr(true) then Thread(thread.items) else old(session.history))
            && (outcome.Failure? ==>
                  && thread.items == base + [UserMessage(userContent)]
                  && response.content == ErrorReply(ErrorText(outcome.error))
                  && session.history == if IsContextOverflow(outcome.error) then Cleared else old(session.history))
  {
    ghost var base := if history != null && history.items != [] then history.items
                      else [SystemMessage(SystemPromptFor(systemPrompt, productName))];
    ghost var outcome := Generated(stream, streamReply, wholeReply, response.content);
    isError := true;
    if history == null || history.items == [] {
      thread := new MessageList([SystemMessage(SystemPromptFor(systemPrompt, productName))]);
    } else {
      thread := history;
    }
    thread.Append(UserMessage(userContent));
    var failure: Option<ProviderError> := None;
    if stream {
      StreamTokens(response, streamReply.chunks);
      failure := streamReply.failure;
    } else {
      match wholeReply
      case Failed(e) =>
        failure := Some(e);
      case Answer(choices) =>
        response.content := choices[0].GetOr("");
    }
    assert failure.None? <==> outcome.Success?;
    if failure.None? {
      assert response.content == outcome.value;
      thread.Append(AssistantMessage(response.content));
      if keepHistory.GetOr(true) {
        session.history := Thread(thread.items);
      }
      isError := false;
    } else {
      assert failure.value == outcome.error;
      var errMsg := HandleContextSizeLimit(failure.value, session);
      response.content := ErrorReply(errMsg);
    }
  }
}
