/** The fixed texts of the assistant (constants.py and the literals of the core files). */
module Constants {

  /** The placeholder written for a missing field of a search hit. */
  const NoValue := "NO VALUE"

  /** NO_RESULTS_FOUND. */
  const NoResultsFound := "No relevant information found in our knowledge database."

  /** SEARCH_RESULTS_TEMPLATE with its four fields filled in. */
  function SearchResultsTemplate(kind: string, text: string, score: string, components: string): string
  {
    "---\n\nkind: " + kind + "\ntext: " + text + "\nscore: " + score + "\ncomponents: " + components + "\n\n"
  }

  /** SEARCH_RESULT_TRUNCATED_CHUNK with its text filled in. */
  function SearchResultTruncatedChunk(text: string): string
  {
    TruncatedHead + text + TruncatedTail
  }

  const TruncatedHead := "\nThe following piece of information was truncated because it was too long:\n\n"
  const TruncatedTail := "\n---\n"

  /** The heading put before the list of related URLs. */
  const TopRelatedKnowledge := "\n\nTop related knowledge:\n"

  /** The answer of `check_message_length` when the tokenizer cannot be reached. */
  const TokenizerFailureText := "We've encountered an issue. Please try again later ..."

  /** The part of a provider error that marks a context-length overflow. */
  const ContextOverflowMarker := "reduce the length of the messages or completion"

  /** The answer given after a context-length overflow. */
  const NewThreadText := "Request size with history exceeded limit, Please start a new thread."

  /** The prefix of the answer given after any provider error. */
  const GenerationErrorPrefix := "I encountered an error while generating a response: "

  /** The placeholder of the system prompt that the product name replaces. */
  const ProductNamePlaceholder := "PRODUCT_NAME"
}
