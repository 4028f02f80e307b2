/**
 * Chat messages and the chat-completion provider, seen from the pipeline. The provider itself is
 * an oracle: a fixed function from a request to a reply or an error. The client object records
 * every request it is given, which is how the model counts chat-completion calls.
 */
module Chat {
  import opened Wrappers

  /** The `role` of a chat message. */
  datatype Role = System | User | Assistant

  /** A `{"role": ..., "content": ...}` message as sent to the chat model and as read back from
      the conversation store. */
  datatype ChatMessage = ChatMessage(role: Role, content: string)

  /** One chat-completion call: the message list and the sampling temperature. */
  datatype ChatRequest = ChatRequest(messages: seq<ChatMessage>, temperature: real)

  /** The temperature both of the pipeline's calls use. */
  const PipelineTemperature: real := 0.3

  /** The chat side of the provider connector (`chat_completion`). */
  class ChatClient {
    /** What the provider answers to each request: the reply text, or the error it raises. */
    const respond: ChatRequest -> Result<string>
    /** Every request made so far, oldest first. */
    var requests: seq<ChatRequest>

    constructor (respond: ChatRequest -> Result<string>)
      ensures this.respond == respond
      ensures requests == []
    {
      this.respond := respond;
      requests := [];
    }

    /** One call to the provider: records the request and returns the provider's reply. */
    method ChatCompletion(messages: seq<ChatMessage>, temperature: real) returns (reply: Result<string>)
      modifies this
      ensures requests == old(requests) + [ChatRequest(messages, temperature)]
      ensures reply == respond(ChatRequest(messages, temperature))
    {
      var request := ChatRequest(messages, temperature);
      requests := requests + [request];
      reply := respond(request);
    }
  }
}
