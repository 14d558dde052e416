/**
 * The serverless endpoint `POST /api/generate-image`: the ordered precondition
 * chain, the call to the image model, the inline-image scan and the
 * status/body mapping, with the caught exception path.
 */
module GenerateImageApi {
  import opened Wrappers
  import opened JsStrings
  import opened GenAI

  const MethodNotAllowed: string := "Method not allowed"
  const PromptRequired: string := "Prompt is required"
  const MissingApiKey: string := "Server configuration error: API key not found"
  const NoImageData: string := "No image data in API response"
  const GenerationFailed: string := "Failed to generate image"

  /** The JSON body: `{ imageUrl }` on success, `{ error }` otherwise. */
  datatype Body = ImageUrl(imageUrl: string) | Error(error: string)
  datatype Reply = Reply(status: int, body: Body)

  /** A reply together with the request the upstream model received, if it was called at all. */
  datatype Handled = Handled(reply: Reply, upstreamCall: Option<GenerateRequest>)

  /** The prompt is missing, or nothing is left of it once trimmed (stated without `Trim`). */
  predicate PromptAbsent(prompt: Option<string>) {
    prompt.None? || IsBlank(prompt.value)
  }

  /** The key variable is unset or holds the empty string. */
  predicate KeyAbsent(apiKey: Option<string>) {
    apiKey.None? || apiKey.value == ""
  }

  /** The caught error's message when it is a non-empty string, the generic text otherwise. */
  function ThrownMessage(message: Option<string>): (text: string)
    ensures text != ""
    ensures message.Some? && message.value != "" ==> text == message.value
    ensures message.None? || message.value == "" ==> text == GenerationFailed
  {
    if message.Some? && message.value != "" then message.value else GenerationFailed
  }

  /** The server's test: the part has an inline-data object whose payload is a non-empty string. */
  predicate CarriesImageData(p: Part) {
    p.inlineData.Some? && p.inlineData.value.data.Text? && p.inlineData.value.data.text != ""
  }

  function ImageData(p: Part): string
    requires CarriesImageData(p)
  {
    p.inlineData.value.data.text
  }

  /** `k` is the first index whose part carries image data. */
  predicate EarliestImagePart(parts: seq<Part>, k: int) {
    0 <= k < |parts| && CarriesImageData(parts[k]) &&
    forall j :: 0 <= j < k ==> !CarriesImageData(parts[j])
  }

  /** The specification of the scan: the earliest part with image data, as a PNG data URI. */
  function FirstImage(parts: seq<Part>): (url: Option<string>)
    ensures url.Some? ==> StartsWith(url.value, DataUriPrefix) && |url.value| > |DataUriPrefix|
  {
    if parts == [] then None
    else if CarriesImageData(parts[0]) then Some(DataUriPrefix + ImageData(parts[0]))
    else FirstImage(parts[1..])
  }

  /** The decoder: no candidate, no content or no parts all mean "no image", never a fault. */
  function Decode(response: Response): (url: Option<string>)
    ensures response.candidates.None? ==> url.None?
    ensures response.candidates == Some([]) ==> url.None?
    ensures response.candidates.Some? && |response.candidates.value| > 0 ==>
              var first := response.candidates.value[0];
              (first.content.None? || first.content.value.parts.None?) ==> url.None?
    ensures url.Some? ==> StartsWith(url.value, DataUriPrefix) && |url.value| > |DataUriPrefix|
  {
    match FirstCandidateParts(response)
    case None => None
    case Some(parts) => FirstImage(parts)
  }

  /** The answer is the payload of the earliest image part, whatever precedes or follows it. */
  lemma {:induction false} FirstImageAt(parts: seq<Part>, k: int)
    requires EarliestImagePart(parts, k)
    ensures FirstImage(parts) == Some(DataUriPrefix + ImageData(parts[k]))
  {
    if k > 0 {
      assert !CarriesImageData(parts[0]);
      assert EarliestImagePart(parts[1..], k - 1) by {
        forall j | 0 <= j < k - 1 ensures !CarriesImageData(parts[1..][j]) {
          assert parts[1..][j] == parts[j + 1];
        }
      }
      FirstImageAt(parts[1..], k - 1);
    }
  }

  /** "No image" exactly when no part carries image data. */
  lemma {:induction false} FirstImageNone(parts: seq<Part>)
    ensures FirstImage(parts).None? <==> forall j :: 0 <= j < |parts| ==> !CarriesImageData(parts[j])
  {
    if parts != [] && !CarriesImageData(parts[0]) {
      FirstImageNone(parts[1..]);
      assert forall j :: 0 < j < |parts| ==> parts[j] == parts[1..][j - 1];
    }
  }

  /** Once an image is found, later parts are ignored. */
  lemma {:induction false} FirstImageIgnoresLater(found: seq<Part>, later: seq<Part>)
    requires FirstImage(found).Some?
    ensures FirstImage(found + later) == FirstImage(found)
  {
    assert found != [];
    assert (found + later)[0] == found[0];
    if !CarriesImageData(found[0]) {
      assert (found + later)[1..] == found[1..] + later;
      FirstImageIgnoresLater(found[1..], later);
    }
  }

  /** Parts without image data are skipped. */
  lemma {:induction false} FirstImageSkipsEmpty(skipped: seq<Part>, rest: seq<Part>)
    requires FirstImage(skipped).None?
    ensures FirstImage(skipped + rest) == FirstImage(rest)
  {
    if skipped != [] {
      assert (skipped + rest)[0] == skipped[0];
      assert (skipped + rest)[1..] == skipped[1..] + rest;
      FirstImageSkipsEmpty(skipped[1..], rest);
    } else {
      assert skipped + rest == rest;
    }
  }

  /** The extraction loop over the first candidate's parts; it breaks at the first image. */
  method ExtractImageUrl(response: Response) returns (imageUrl: Option<string>)
    ensures imageUrl == Decode(response)
  {
    imageUrl := None;
    var parts := FirstCandidateParts(response);
    if parts.Some? {
      var ps := parts.value;
      var k := 0;
      while k < |ps|
        invariant 0 <= k <= |ps|
        invariant imageUrl == None
        invariant FirstImage(ps) == FirstImage(ps[k..])
      {
        if CarriesImageData(ps[k]) {
          imageUrl := Some(DataUriPrefix + ps[k].inlineData.value.data.text);
          break;
        }
        assert ps[k..][1..] == ps[k + 1..];
        k := k + 1;
      }
    }
  }

  /**
   * The handler. Preconditions are checked in source order (method, prompt, key);
   * the model is called only when all three pass, with the prompt as sent, untrimmed.
   */
  method Handler(verb: string, prompt: Option<string>, apiKey: Option<string>, upstream: Outcome)
    returns (h: Handled)
    ensures h.reply.status in {200, 400, 405, 500}
    ensures h.reply.status == 200 <==> h.reply.body.ImageUrl?
    ensures h.reply.status == 405 <==> verb != "POST"
    ensures verb != "POST" ==> h.reply.body == Error(MethodNotAllowed)
    ensures h.reply.status == 400 <==> verb == "POST" && PromptAbsent(prompt)
    ensures h.reply.status == 400 ==> h.reply.body == Error(PromptRequired)
    ensures verb == "POST" && !PromptAbsent(prompt) && KeyAbsent(apiKey) ==>
              h.reply == Reply(500, Error(MissingApiKey))
    ensures h.upstreamCall.Some? <==> verb == "POST" && !PromptAbsent(prompt) && !KeyAbsent(apiKey)
    ensures h.upstreamCall.Some? ==> h.upstreamCall == Some(GenerateRequest(ImageModel, [prompt.value]))
    ensures h.upstreamCall.Some? && upstream.Threw? ==>
              h.reply == Reply(500, Error(ThrownMessage(upstream.message)))
    ensures h.upstreamCall.Some? && upstream.Returned? ==>
              h.reply == match Decode(upstream.response)
                         case Some(url) => Reply(200, ImageUrl(url))
                         case None => Reply(500, Error(NoImageData))
    ensures h.reply.body.ImageUrl? ==>
              StartsWith(h.reply.body.imageUrl, DataUriPrefix) && |h.reply.body.imageUrl| > |DataUriPrefix|
  {
    if verb != "POST" {
      return Handled(Reply(405, Error(MethodNotAllowed)), None);
    }
    if prompt.None? || Trim(prompt.value) == "" {
      TrimEmptyIffBlank(if prompt.Some? then prompt.value else "");
      return Handled(Reply(400, Error(PromptRequired)), None);
    }
    TrimEmptyIffBlank(prompt.value);
    if apiKey.None? || apiKey.value == "" {
      return Handled(Reply(500, Error(MissingApiKey)), None);
    }
    var call := PromptRequest(prompt.value);
    match upstream {
      case Threw(message) =>
        h := Handled(Reply(500, Error(ThrownMessage(message))), Some(call));
      case Returned(response) =>
        var imageUrl := ExtractImageUrl(response);
        if imageUrl.Some? && imageUrl.value != "" {
          h := Handled(Reply(200, ImageUrl(imageUrl.value)), Some(call));
        } else {
          h := Handled(Reply(500, Error(NoImageData)), Some(call));
        }
    }
  }
}
