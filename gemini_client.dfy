/**
 * `callGemini` (src/gemini.js): builds the generateContent endpoint from
 * GEMINI_API_URL and the model name, authenticates with GEMINI_API_KEY or an
 * OAuth access token, maps 429 and 404 failures to named errors and extracts
 * the answer from the response.
 */
module GeminiClient {
  import opened Base
  import opened Effects

  /** A part of a candidate's content: its `text` ("" when absent or falsy). */
  datatype Part = Part(text: string)

  /** `candidates[0].content`; `parts` is None when missing or falsy. */
  datatype GeminiContent = GeminiContent(parts: Option<seq<Part>>)

  datatype Candidate = Candidate(content: Option<GeminiContent>)

  /**
   * The response body: `candidates` (None when missing), `output` (Some when it
   * is a string) and the body as `JSON.stringify(res.data, null, 2)` prints it.
   */
  datatype GeminiBody = GeminiBody(candidates: Option<seq<Candidate>>, output: Option<string>, json: string)

  /** What `getAccessToken` got: a token ("" when the client returned none) or a thrown error. */
  datatype TokenReply = Token(token: string) | AuthFailed(failure: Failure)

  /** `callGemini` returns a string, or the content object itself when it has no parts. */
  datatype Answer = AnswerText(text: string) | ContentObject(content: GeminiContent)

  const DefaultBaseUrl := "https://generativelanguage.googleapis.com/v1beta/models"
  const DefaultModel := "gemini-2.5-pro"
  const NoTokenMessage := "Failed to acquire access token for Google APIs"
  const RateLimitedMessage := "Rate limited by Gemini API. Please wait a moment and try again."

  function ModelNotFoundMessage(modelName: string): string {
    "Gemini model '" + modelName + "' not found. Try 'gemini-2.5-pro', 'gemini-2.5-flash', or 'gemini-pro-latest'."
  }

  /** An answer as a template literal or `join` prints it. */
  function AnswerString(a: Answer): string {
    match a
    case AnswerText(t) => t
    case ContentObject(_) => "[object Object]"
  }

  /** `model.replace(/^models\//, '')`. */
  function StripModelsPrefix(model: string): (r: string)
    ensures StartsWith(model, "models/") ==> model == "models/" + r
    ensures !StartsWith(model, "models/") ==> r == model
  {
    if StartsWith(model, "models/") then model[7..] else model
  }

  /** `${baseUrl}/${modelName}:generateContent`, plus `?key=…` only when a key is set. */
  function Endpoint(env: Env, model: string): (r: string)
    ensures var base := if env.geminiApiUrl != "" then env.geminiApiUrl else DefaultBaseUrl;
      var plain := base + "/" + StripModelsPrefix(model) + ":generateContent";
      && (env.geminiApiKey == "" ==> r == plain)
      && (env.geminiApiKey != "" ==> r == plain + "?key=" + env.geminiApiKey)
  {
    var base := if env.geminiApiUrl != "" then env.geminiApiUrl else DefaultBaseUrl;
    base + "/" + StripModelsPrefix(model) + ":generateContent"
      + (if env.geminiApiKey != "" then "?key=" + env.geminiApiKey else "")
  }

  /** The catch block: 429 and 404 get their own messages, anything else is rethrown. */
  function CallFailureMessage(f: Failure, modelName: string): (m: string)
    ensures HasStatus(f, 429) ==> m == RateLimitedMessage
    ensures HasStatus(f, 404) ==> m == ModelNotFoundMessage(modelName)
    ensures !HasStatus(f, 429) && !HasStatus(f, 404) ==> m == f.message
  {
    if HasStatus(f, 429) then RateLimitedMessage
    else if HasStatus(f, 404) then ModelNotFoundMessage(modelName)
    else f.message
  }

  /** `parts.map(p => p.text || '').join('\n')`. */
  function JoinParts(parts: seq<Part>): string {
    Join(seq(|parts|, i requires 0 <= i < |parts| => parts[i].text), "\n")
  }

  /** The extraction cascade over a successful response. */
  function Extract(body: GeminiBody): (a: Answer)
    ensures body.candidates.Some? && |body.candidates.value| > 0 && body.candidates.value[0].content.Some? ==>
      match body.candidates.value[0].content.value.parts
      case Some(ps) => a == AnswerText(JoinParts(ps))
      case None => a == ContentObject(body.candidates.value[0].content.value)
    ensures a.ContentObject? ==> a.content.parts.None?
    ensures (body.candidates.None? || |body.candidates.value| == 0 || body.candidates.value[0].content.None?) ==>
      a == AnswerText(if body.output.Some? && body.output.value != "" then body.output.value else body.json)
  {
    if body.candidates.Some? && |body.candidates.value| > 0 && body.candidates.value[0].content.Some? then
      var c := body.candidates.value[0].content.value;
      if c.parts.Some? then AnswerText(JoinParts(c.parts.value)) else ContentObject(c)
    else if body.output.Some? && body.output.value != "" then AnswerText(body.output.value)
    else AnswerText(body.json)
  }

  /**
   * `callGemini(prompt, model)`: the requests it makes (an access token first
   * when no API key is set) and the answer or error.
   */
  function CallGemini(prompt: string, model: string, env: Env, token: TokenReply, reply: Reply<GeminiBody>): (r: Run<Answer>)
    ensures |r.effects| >= 1 && forall i :: 0 <= i < |r.effects| ==> r.effects[i].Call?
    ensures env.geminiApiKey != "" ==> r.effects == [Call(GenerateContent(Endpoint(env, model), prompt, None))]
    ensures env.geminiApiKey == "" ==> r.effects[0] == Call(AccessToken)
    ensures env.geminiApiKey == "" && token.Token? && token.token == "" ==>
      r.effects == [Call(AccessToken)] && r.result == Err(NoTokenMessage)
    ensures env.geminiApiKey == "" && token.Token? && token.token != "" ==>
      r.effects == [Call(AccessToken), Call(GenerateContent(Endpoint(env, model), prompt, Some(token.token)))]
    ensures env.geminiApiKey == "" && token.AuthFailed? ==>
      r.effects == [Call(AccessToken)] && r.result == Err(CallFailureMessage(token.failure, StripModelsPrefix(model)))
    ensures r.result.Ok? ==> reply.Answered? && r.result.value == Extract(reply.body)
    ensures r.effects[|r.effects| - 1].request.GenerateContent? ==>
      r.result == match reply
        case Answered(body) => Ok(Extract(body))
        case Failed(f) => Err(CallFailureMessage(f, StripModelsPrefix(model)))
  {
    var modelName := StripModelsPrefix(model);
    var endpoint := Endpoint(env, model);
    var post := (bearer: Option<string>) =>
      match reply
      case Answered(body) => Ok(Extract(body))
      case Failed(f) => Err(CallFailureMessage(f, modelName));
    if env.geminiApiKey != "" then
      Run([Call(GenerateContent(endpoint, prompt, None))], post(None))
    else
      match token
      case AuthFailed(f) => Run([Call(AccessToken)], Err(CallFailureMessage(f, modelName)))
      case Token(t) =>
        if t == "" then Run([Call(AccessToken)], Err(NoTokenMessage))
        else Run([Call(AccessToken), Call(GenerateContent(endpoint, prompt, Some(t)))], post(Some(t)))
  }

  /** At most one "models/" prefix is removed. */
  lemma StripRemovesOnePrefix(name: string)
    ensures StripModelsPrefix("models/" + name) == name
    ensures StripModelsPrefix("models/models/" + name) == "models/" + name
  {
    assert ("models/" + name)[..7] == "models/";
    assert ("models/models/" + name)[..7] == "models/";
    assert ("models/models/" + name)[7..] == "models/" + name;
  }
}
