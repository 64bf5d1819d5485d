/**
 * `generateImage` (src/openai_image.js): checks the OpenAI key, posts
 * `{model, prompt, size, n}` to the image-generation endpoint and maps each
 * returned item to an inline image, a link or the raw item.
 */
module OpenAiImage {
  import opened Base
  import opened Effects

  /**
   * One element of `res.data.data`: `b64_json` and `url` as strings ("" when
   * absent or falsy) and the item as `JSON.stringify(item, null, 2)` prints it.
   */
  datatype ImageItem = ImageItem(b64Json: string, url: string, json: string)

  /** The response body; `data` is None when `res.data` or `res.data.data` is missing. */
  datatype ImagesBody = ImagesBody(data: Option<seq<ImageItem>>)

  /** `{ b64, mime: 'image/png' }`, `{ url }` or `{ raw: item }`. */
  datatype ImageResult = Inline(b64: string) | Link(url: string) | RawItem(item: ImageItem)

  const MissingKey := "OPENAI_API_KEY not set in environment"
  const UnexpectedResponse := "Unexpected image generation response"
  const ErrorPrefix := "OpenAI API error: "

  /** The item-to-result mapping: `b64_json` wins over `url`, which wins over the raw item. */
  function ToResult(item: ImageItem): (r: ImageResult)
    ensures r.Inline? <==> item.b64Json != ""
    ensures r.Link? <==> item.b64Json == "" && item.url != ""
    ensures r.Inline? ==> r.b64 == item.b64Json
    ensures r.Link? ==> r.url == item.url
    ensures r.RawItem? ==> r.item == item
  {
    if item.b64Json != "" then Inline(item.b64Json)
    else if item.url != "" then Link(item.url)
    else RawItem(item)
  }

  /** `res.data.data.map(...)`. */
  function ToResults(items: seq<ImageItem>): (r: seq<ImageResult>)
    ensures |r| == |items|
    ensures forall i :: 0 <= i < |items| ==> r[i] == ToResult(items[i])
    decreases |items|
  {
    if items == [] then [] else [ToResult(items[0])] + ToResults(items[1..])
  }

  /** `error.response.data?.error?.message` is a non-empty string. */
  predicate HasApiMessage(resp: ErrorResponse) {
    resp.error.Some? && resp.error.value.message.Some? && resp.error.value.message.value != ""
  }

  /**
   * The message of the error the catch block throws for a failed request: the
   * request's own error without a response; otherwise the prefix followed by
   * the API's message when it has one, else by the response body as JSON.
   */
  function FailureMessage(f: Failure): (m: string)
    ensures f.response.None? ==> m == f.message
    ensures f.response.Some? && HasApiMessage(f.response.value) ==>
      m == ErrorPrefix + f.response.value.error.value.message.value
    ensures f.response.Some? && !HasApiMessage(f.response.value) ==>
      m == ErrorPrefix + f.response.value.json
  {
    match f.response
    case None => f.message
    case Some(resp) =>
      var detail := if HasApiMessage(resp) then resp.error.value.message.value else resp.json;
      ErrorPrefix + detail
  }

  /**
   * `generateImage(prompt, { model, size, n })` with OPENAI_API_KEY = `key`;
   * an option that is None takes its destructuring default.
   */
  function GenerateImage(prompt: string, model: Option<Value>, size: Option<Value>, n: Option<Value>,
                         key: string, reply: Reply<ImagesBody>): (r: Run<seq<ImageResult>>)
    ensures key == "" <==> r.effects == []
    ensures key == "" ==> r.result == Err(MissingKey)
    ensures key != "" ==> r.effects == [Call(ImageGeneration(
      model.GetOr(Str("dall-e-2")), prompt, size.GetOr(Str("1024x1024")), n.GetOr(Num(1))))]
    ensures r.result.Ok? <==> key != "" && reply.Answered? && reply.body.data.Some?
    ensures r.result.Ok? ==> |r.result.value| == |reply.body.data.value|
    ensures r.result.Ok? ==> forall i :: 0 <= i < |r.result.value| ==>
      r.result.value[i] == ToResult(reply.body.data.value[i])
    ensures key != "" && reply.Answered? && reply.body.data.None? ==> r.result == Err(UnexpectedResponse)
    ensures key != "" && reply.Failed? ==> r.result == Err(FailureMessage(reply.failure))
  {
    if key == "" then Throw(MissingKey)
    else
      var call := Call(ImageGeneration(model.GetOr(Str("dall-e-2")), prompt, size.GetOr(Str("1024x1024")), n.GetOr(Num(1))));
      match reply
      case Failed(f) => Run([call], Err(FailureMessage(f)))
      case Answered(body) =>
        match body.data
        case None => Run([call], Err(UnexpectedResponse))
        case Some(items) => Run([call], Ok(ToResults(items)))
  }
}
