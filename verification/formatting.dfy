/**
 * The response objects the gateway produces, in the shape of the
 * chat-completion wire format: an error body, one streaming chunk and one
 * complete (non-streaming) completion. Serialisation to JSON text is not
 * modelled; the objects are kept as values.
 *
 * Each completion carries an id `"chatcmpl-" + <random suffix>` and a Unix
 * timestamp; the suffix and the timestamp come from `Math.random` and
 * `Date.now` in the worker and are parameters here.
 */
module Formatting {
  import opened Wrappers

  const IdPrefix: string := "chatcmpl-"
  const StopReason: string := "stop"

  /** `{error: {message, type, code, param}}`; `code` is `None` when the
      status passed in was undefined. */
  datatype ErrorResponse = ErrorResponse(message: string, typ: string, code: Option<int>, param: Option<string>)

  /** `{id, object: "chat.completion.chunk", created, model, choices: [{index, delta, finish_reason}]}`.
      `delta` is `None` for the empty delta `{}` and `Some(c)` for `{content: c}`;
      `finishReason` is `None` for `null`. */
  datatype ChatCompletionChunk = ChatCompletionChunk(
    id: string, objectType: string, created: int, model: Option<string>,
    index: nat, delta: Option<string>, finishReason: Option<string>)

  /** `{id, object: "chat.completion", created, model, choices: [{index, message: {role, content}, finish_reason}]}`. */
  datatype ChatCompletion = ChatCompletion(
    id: string, objectType: string, created: int, model: Option<string>,
    index: nat, role: string, content: string, finishReason: string)

  /** `formatErrorResponse(status, message, type)`: `param` is always null. */
  function FormatErrorResponse(status: Option<int>, message: string, typ: string): (r: ErrorResponse)
    ensures r.code == status && r.message == message && r.typ == typ
    ensures r.param == None
  {
    ErrorResponse(message, typ, status, None)
  }

  /** `formatStreamingChunk(content, isLastChunk, modelName)`: a last chunk has
      the empty delta and finish reason "stop", any other chunk carries the
      content and no finish reason. */
  function FormatStreamingChunk(content: string, isLastChunk: bool, modelName: Option<string>,
                                idSuffix: string, created: int): (c: ChatCompletionChunk)
    ensures c.objectType == "chat.completion.chunk" && c.index == 0 && c.model == modelName
    ensures c.id == IdPrefix + idSuffix && c.created == created
    ensures isLastChunk <==> c.finishReason == Some(StopReason)
    ensures isLastChunk <==> c.delta == None
    ensures !isLastChunk ==> c.delta == Some(content) && c.finishReason == None
  {
    ChatCompletionChunk(IdPrefix + idSuffix, "chat.completion.chunk", created, modelName, 0,
                        if isLastChunk then None else Some(content),
                        if isLastChunk then Some(StopReason) else None)
  }

  /** `formatOpenAIResponse(assistantMessage, modelName)`: one assistant
      message, finished with "stop". */
  function FormatOpenAIResponse(assistantMessage: string, modelName: Option<string>,
                                idSuffix: string, created: int): (r: ChatCompletion)
    ensures r.objectType == "chat.completion" && r.index == 0 && r.model == modelName
    ensures r.id == IdPrefix + idSuffix && r.created == created
    ensures r.role == "assistant" && r.content == assistantMessage && r.finishReason == StopReason
  {
    ChatCompletion(IdPrefix + idSuffix, "chat.completion", created, modelName, 0,
                   "assistant", assistantMessage, StopReason)
  }
}
