/** What both entry points share: the opaque document libraries they hand the
    uploaded bytes to, and the request/response shape of the Moonshot (Kimi)
    chat-completions endpoint they call. Neither the libraries nor the network
    are modelled; their results are parameters of the entry points. */
module Kimi {
  import opened JsValues

  newtype byte = x: int | 0 <= x < 256

  type Bytes = seq<byte>

  /** How a document-library call settles: a result object whose text field
      (`data.text` of pdf-parse, `result.value` of mammoth) may be undefined,
      or a rejection with an error message. */
  datatype LibOutcome = Extracted(text: Option<string>) | LibThrew(message: string)

  /** The third-party code the service delegates extraction to, as functions of
      the file bytes: pdf-parse, mammoth's `extractRawText`, and UTF-8 decoding
      (`buf.toString("utf8")`, which never throws). */
  datatype Libraries = Libraries(
    pdfParse: Bytes -> LibOutcome,
    extractRawText: Bytes -> LibOutcome,
    decodeUtf8: Bytes -> string)

  datatype Message = Message(role: string, content: string)

  /** One POST to the chat-completions endpoint: its URL, the bearer key and the
      JSON body fields the service sets (`max_tokens` and the client timeout
      only where a caller sets them). */
  datatype ChatRequest = ChatRequest(
    url: string,
    apiKey: string,
    model: string,
    messages: seq<Message>,
    temperature: real,
    maxTokens: Option<nat>,
    timeoutMs: Option<nat>)

  /** How the endpoint answers one request.
      - `Answered`: a 2xx response with a JSON body; `content` is
        `choices[0].message.content`, undefined when any step of that path is
        missing.
      - `HttpError`: a non-2xx response; `body` is its text, or undefined when
        reading it failed.
      - `TransportFailure`: the request or the JSON decoding threw (network
        error, timeout, malformed JSON). */
  datatype LlmOutcome =
    | Answered(content: Option<string>)
    | HttpError(status: nat, body: Option<string>)
    | TransportFailure(message: string)

  /** The network, as a function from the request sent to the outcome. */
  type Transport = ChatRequest -> LlmOutcome

  const ChatCompletionsUrl: string := "https://api.moonshot.cn/v1/chat/completions"

  const DefaultModel: string := "moonshot-v1-8k"

  /** `temperature: 0.3` in both request bodies. */
  const Temperature: real := 0.3
}
