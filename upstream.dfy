/** The shapes the relay exchanges with the streaming chat-completion service:
    the service's role names, the request messages the three argument builders
    produce, a non-streaming response, one streamed chunk, and the outcome of
    asking the service for a stream.  The service itself is a function from the
    request to that outcome. */
module Upstream {
  import opened Wrappers

  /** The service's role names; it knows two roles the chat never uses. */
  datatype Role = System | User | Assistant | Tool | Function

  /** One request message, as built by the system, user or assistant builder. */
  datatype RequestMessage =
    | SystemRequest(content: string)
    | UserRequest(content: string)
    | AssistantRequest(content: string)

  /** The role a request message carries on the wire. */
  function RequestRole(m: RequestMessage): Role
  {
    match m
    case SystemRequest(_) => System
    case UserRequest(_) => User
    case AssistantRequest(_) => Assistant
  }

  /** A non-streaming response: each choice holds one message. */
  datatype ResponseMessage = ResponseMessage(role: Role, content: Option<string>)
  datatype ResponseChoice = ResponseChoice(message: ResponseMessage)
  datatype Response = Response(choices: seq<ResponseChoice>)

  /** Why the service stopped generating. */
  datatype FinishReason = Stop | Length | ToolCalls | ContentFilter | FunctionCall

  /** One choice of a streamed chunk: a finish reason, or a delta that may carry text. */
  datatype Delta = Delta(content: Option<string>)
  datatype StreamChoice = StreamChoice(finishReason: Option<FinishReason>, delta: Delta)
  datatype StreamResponse = StreamResponse(choices: seq<StreamChoice>)

  /** A transport or service failure reported in place of a chunk. */
  datatype ServiceError = ServiceError(reason: string)

  /** One item of the stream: a chunk, or an error. */
  type Chunk = Result<StreamResponse, ServiceError>

  /** Asking for a stream either fails outright or yields the finite chunk sequence. */
  datatype Completion = Refused | Streamed(chunks: seq<Chunk>)

  /** The completion capability: what the service answers to a given request. */
  type Client = seq<RequestMessage> -> Completion
}
