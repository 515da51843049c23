/**
 * What the core sees of the OpenAI chat service: replies, tool calls, the transcript the conflict
 * scanner sends, and the Faraday errors a request can raise. The service itself is not modelled;
 * its answers are inputs.
 */
module ReasoningService {
  import opened Wrappers

  /** The `content` of `choices[0].message` of a one-shot JSON request, or what the request raised. */
  type Completion = Result<Option<string>, Exception>

  /** One entry of `tool_calls`: its id, `function.name` and the raw `function.arguments` JSON. */
  datatype ToolCall = ToolCall(id: Option<string>, name: Option<string>, arguments: Option<string>)

  /** `choices[0].message` of a chat reply. */
  datatype AssistantMessage = AssistantMessage(content: Option<string>, toolCalls: Option<seq<ToolCall>>)

  /** The class of a raised error, as far as the retry policy distinguishes it. */
  datatype ErrorKind =
    | TooManyRequests    // Faraday::TooManyRequestsError
    | OtherFaradayError  // any other Faraday::Error
    | NotFaraday         // anything else

  /** The `retry-after` header already read with `to_f`, and the raw `x-ratelimit-reset-requests`. */
  datatype Headers = Headers(retryAfter: Option<real>, resetRequests: Option<string>)

  /** `error.response`: not a Hash (nil, say), or a Hash whose `:headers` may be missing. */
  datatype ErrorResponse = NotAHash | HashResponse(headers: Option<Headers>)

  datatype ServiceError = ServiceError(kind: ErrorKind, className: string, message: string, response: ErrorResponse) {
    function AsException(): Exception {
      Exception(className, message)
    }
  }

  /** A chat request either returns a reply, whose `choices[0].message` may be absent, or raises. */
  type ChatOutcome = Result<Option<AssistantMessage>, ServiceError>

  /** The JSON a tool call is answered with. */
  datatype ToolResult =
    | NotFound                                                   // {error: "Not found"}
    | PolicyContent(id: nat, name: string, content: Option<string>)
    | Skipped                                                    // {skipped: true, message: "Conflict already reported"}
    | Reported                                                   // {success: true}
    | NoResult                                                   // nil, for an unknown tool name

  /** The conflict scanner's transcript. */
  datatype Message =
    | SystemPrompt
    | UserPrompt
    | Assistant(message: AssistantMessage)
    | ToolReply(toolCallId: Option<string>, result: ToolResult)

  /**
   * The conflict scanner's chat service: the outcome of the request with a given transcript,
   * numbered by how many requests went before it.
   */
  type Chat = (seq<Message>, nat) -> ChatOutcome
}
