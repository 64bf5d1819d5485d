/**
 * What a command does to the world outside it, in order: remote requests
 * (HTTP APIs, cloud storage, the headless browser), recursive directory
 * creation and file writes. A command is modelled as a function from its
 * options, the environment and the replies it would receive to the trace of
 * these effects and its outcome.
 */
module Effects {
  import opened Base
  import opened Paths

  newtype byte = x: int | 0 <= x < 256

  /** What a file write stores. */
  datatype Content =
    | Text(text: string)              // a string written as UTF-8
    | Base64Image(encoded: string)    // the buffer decoded from a base64 string
    | Bytes(data: seq<byte>)          // a raw buffer (a screenshot)

  /** The environment variables the core reads; "" stands for unset. */
  datatype Env = Env(
    openAiKey: string,          // OPENAI_API_KEY
    searchKey: string,          // GOOGLE_SEARCH_API_KEY
    searchEngineId: string,     // GOOGLE_SEARCH_ENGINE_ID
    geminiBucket: string,       // GEMINI_GCS_BUCKET
    geminiModel: string,        // GEMINI_MODEL
    geminiApiKey: string,       // GEMINI_API_KEY
    geminiApiUrl: string)       // GEMINI_API_URL

  /** Readings of the clock: `Date.now()` and `new Date().toISOString()`. */
  datatype Clock = Clock(now: nat, iso: string)

  /** `error.response.data.error` of a failed API request. */
  datatype ApiError = ApiError(message: Option<string>)

  /** `error.response` of a failed request: the status, the API's error object, the body as JSON. */
  datatype ErrorResponse = ErrorResponse(status: int, error: Option<ApiError>, json: string)

  /** A thrown request error: its `message` and, when the server answered, its `response`. */
  datatype Failure = Failure(message: string, response: Option<ErrorResponse>)

  /** The reply to one remote request. */
  datatype Reply<T> = Answered(body: T) | Failed(failure: Failure)

  /** `error.response?.status === code`. */
  predicate HasStatus(f: Failure, code: int) {
    f.response.Some? && f.response.value.status == code
  }

  datatype WaitUntil = DomContentLoaded | Load

  /** A remote request, with the parts of it the core decides. */
  datatype Request =
    | ImageGeneration(model: Value, prompt: string, size: Value, n: Value)
    | ChatCompletion(chatModel: string, topic: string)
    | CustomSearch(query: string, key: string, cx: string, num: int)
    | AccessToken
    | GenerateContent(endpoint: string, prompt: string, bearer: Option<string>)
    | StorageUpload(localPath: string, bucket: string, destName: string)
    | DesignFeedback(endpoint: string)
    | LaunchBrowser
    | SetViewport(width: Value, height: Option<Value>)
    | Navigate(url: string, waitUntil: WaitUntil, timeoutMs: int)
    | WaitFor(ms: Value)
    | ReadTitle
    | ReadDescription
    | ReadScrollSize
    | Screenshot(fullPage: Value)
    | CloseBrowser

  datatype Effect =
    | Call(request: Request)
    | MkDirP(dir: Segments)
    | Write(dir: Segments, name: string, content: Content)

  /** A command's effects, in order, and what it returned or threw. */
  datatype Run<T> = Run(effects: seq<Effect>, result: Result<T>)

  /** The run of a command that threw before doing anything. */
  function Throw<T>(message: string): (r: Run<T>)
    ensures r.effects == [] && r.result == Err(message)
  {
    Run([], Err(message))
  }

  predicate IsCall(e: Effect) {
    e.Call?
  }

  predicate NoCalls(effects: seq<Effect>) {
    forall i :: 0 <= i < |effects| ==> !effects[i].Call?
  }

  predicate NoWrites(effects: seq<Effect>) {
    forall i :: 0 <= i < |effects| ==> !effects[i].Write?
  }

  /** The files a trace writes, as (directory, name) pairs in order. */
  function Written(effects: seq<Effect>): (r: seq<(Segments, string)>)
    ensures |r| <= |effects|
    decreases |effects|
  {
    if effects == [] then []
    else (if effects[0].Write? then [(effects[0].dir, effects[0].name)] else []) + Written(effects[1..])
  }
}
