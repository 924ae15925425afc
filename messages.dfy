/** Chat messages, the message lists that the core grows in place, and the session
    slot that holds the conversation history. */
module Messages {
  import opened Wrappers

  datatype Role = System | User | Assistant

  /** One chat message; `name` is the optional author marker ("debug" for diagnostics). */
  datatype Message = Message(role: Role, content: string, name: Option<string>)

  function SystemMessage(content: string): Message { Message(System, content, None) }
  function UserMessage(content: string): Message { Message(User, content, None) }
  function AssistantMessage(content: string): Message { Message(Assistant, content, None) }

  /** A Python list of messages: callers share it and `append` grows it in place. */
  class MessageList {
    var items: seq<Message>

    constructor (items: seq<Message>)
      ensures this.items == items
    {
      this.items := items;
    }

    method Append(m: Message)
      modifies this
      ensures items == old(items) + [m]
    {
      items := items + [m];
    }
  }

  /** The reply message the assistant fills in: its text and, for the API's reply object
      only, the `urls` attribute (`None` where the object has no such attribute). */
  class Reply {
    var content: string
    var urls: Option<seq<Option<string>>>

    constructor (content: string, urls: Option<seq<Option<string>>>)
      ensures this.content == content && this.urls == urls
    {
      this.content := content;
      this.urls := urls;
    }
  }

  /** What the session holds under 'message_history': nothing yet (None), the empty
      string '' written after a context overflow, or a snapshot of a list of messages. */
  datatype Stored = Unset | Cleared | Thread(msgs: seq<Message>)

  /** Python truthiness of the stored value: only a non-empty list is true. */
  predicate Truthy(s: Stored)
  {
    s.Thread? && s.msgs != []
  }

  /** The per-user session state the core reads and writes. */
  class Session {
    var history: Stored

    constructor (history: Stored)
      ensures this.history == history
    {
      this.history := history;
    }
  }
}
