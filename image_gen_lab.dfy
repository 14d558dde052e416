/**
 * The browser's "Neural Art Lab": prompt text, a loading flag and the last
 * image, driven by the button, the Enter key and the completion of the model
 * call. `generateImage` is split at its `await` into Submit and Complete.
 */
module ImageLab {
  import opened Wrappers
  import opened JsStrings
  import opened GenAI
  import GenerateImageApi

  const ButtonIdle: string := "Manifest"
  const ButtonBusy: string := "Synthesizing..."
  const CaptionBusy: string := "Computing Neural Vectors..."
  const CaptionIdle: string := "Awaiting Latent Seed"

  /** The browser's test: the part has an inline-data object at all; its payload is not examined. */
  predicate HasInlineData(p: Part) {
    p.inlineData.Some?
  }

  /** String interpolation of the payload: an undefined payload becomes the text "undefined", a null one "null". */
  function TemplateText(data: Payload): (text: string)
    ensures data.Text? ==> text == data.text
    ensures data.Undefined? ==> text == "undefined"
    ensures data.Null? ==> text == "null"
  {
    match data
    case Undefined => "undefined"
    case Null => "null"
    case Text(s) => s
  }

  function InlineUrl(p: Part): string
    requires HasInlineData(p)
  {
    DataUriPrefix + TemplateText(p.inlineData.value.data)
  }

  predicate EarliestInlinePart(parts: seq<Part>, k: int) {
    0 <= k < |parts| && HasInlineData(parts[k]) &&
    forall j :: 0 <= j < k ==> !HasInlineData(parts[j])
  }

  /** The browser's scan: the first part with any inline data, as a PNG data URI. */
  function ClientFirstImage(parts: seq<Part>): (url: Option<string>)
    ensures url.Some? ==> StartsWith(url.value, DataUriPrefix) && url.value != ""
  {
    if parts == [] then None
    else if HasInlineData(parts[0]) then Some(InlineUrl(parts[0]))
    else ClientFirstImage(parts[1..])
  }

  function ClientDecode(response: Response): (url: Option<string>)
    ensures response.candidates.None? ==> url.None?
    ensures response.candidates == Some([]) ==> url.None?
    ensures response.candidates.Some? && |response.candidates.value| > 0 ==>
              var first := response.candidates.value[0];
              (first.content.None? || first.content.value.parts.None?) ==> url.None?
    ensures url.Some? ==> StartsWith(url.value, DataUriPrefix) && url.value != ""
  {
    match FirstCandidateParts(response)
    case None => None
    case Some(parts) => ClientFirstImage(parts)
  }

  /** The browser's result is fixed by the earliest inline-data part alone. */
  lemma {:induction false} ClientFirstImageAt(parts: seq<Part>, k: int)
    requires EarliestInlinePart(parts, k)
    ensures ClientFirstImage(parts) == Some(InlineUrl(parts[k]))
  {
    if k > 0 {
      assert EarliestInlinePart(parts[1..], k - 1) by {
        forall j | 0 <= j < k - 1 ensures !HasInlineData(parts[1..][j]) {
          assert parts[1..][j] == parts[j + 1];
        }
      }
      ClientFirstImageAt(parts[1..], k - 1);
    }
  }

  lemma {:induction false} ClientFirstImageNone(parts: seq<Part>)
    ensures ClientFirstImage(parts).None? <==> forall j :: 0 <= j < |parts| ==> !HasInlineData(parts[j])
  {
    if parts != [] && !HasInlineData(parts[0]) {
      ClientFirstImageNone(parts[1..]);
      assert forall j :: 0 < j < |parts| ==> parts[j] == parts[1..][j - 1];
    }
  }

  /** Whenever the server would find an image, so does the browser. */
  lemma {:induction false} ServerImageImpliesClientImage(parts: seq<Part>)
    ensures GenerateImageApi.FirstImage(parts).Some? ==> ClientFirstImage(parts).Some?
  {
    if parts != [] && !HasInlineData(parts[0]) {
      ServerImageImpliesClientImage(parts[1..]);
    }
  }

  /**
   * Where the decoders part ways: at the earliest inline-data part. With a
   * non-empty payload there they agree; without one the browser answers from
   * that part anyway while the server goes on scanning after it.
   */
  lemma {:induction false} DecodersAtEarliestInline(parts: seq<Part>, k: int)
    requires EarliestInlinePart(parts, k)
    ensures ClientFirstImage(parts) == Some(InlineUrl(parts[k]))
    ensures GenerateImageApi.CarriesImageData(parts[k]) ==>
              GenerateImageApi.FirstImage(parts) == ClientFirstImage(parts)
    ensures !GenerateImageApi.CarriesImageData(parts[k]) ==>
              GenerateImageApi.FirstImage(parts) == GenerateImageApi.FirstImage(parts[k + 1..])
  {
    ClientFirstImageAt(parts, k);
    var before := parts[..k + 1];
    assert parts == before + parts[k + 1..];
    if GenerateImageApi.CarriesImageData(parts[k]) {
      assert GenerateImageApi.EarliestImagePart(parts, k);
      GenerateImageApi.FirstImageAt(parts, k);
    } else {
      GenerateImageApi.FirstImageNone(before);
      GenerateImageApi.FirstImageSkipsEmpty(before, parts[k + 1..]);
    }
  }

  /** With no inline data anywhere, both answer "no image". */
  lemma NoInlineDataNoImage(parts: seq<Part>)
    requires forall j :: 0 <= j < |parts| ==> !HasInlineData(parts[j])
    ensures GenerateImageApi.FirstImage(parts).None? && ClientFirstImage(parts).None?
  {
    GenerateImageApi.FirstImageNone(parts);
    ClientFirstImageNone(parts);
  }

  /**
   * A concrete response on which the two paths disagree: an inline part whose
   * payload is undefined or null, before a real one. The server returns the
   * real image; the browser stores a URI whose payload is the text
   * "undefined" or "null".
   */
  lemma DecodersDisagree(missing: Payload)
    requires !missing.Text?
    ensures var blank := Part(None, Some(InlineData(Some("image/png"), missing)));
            var image := Part(None, Some(InlineData(Some("image/png"), Text("QUJD"))));
            var response := Response(Some([Candidate(Some(Content(Some([blank, image]))))]));
            GenerateImageApi.Decode(response) == Some("data:image/png;base64,QUJD") &&
            (missing.Undefined? ==> ClientDecode(response) == Some("data:image/png;base64,undefined")) &&
            (missing.Null? ==> ClientDecode(response) == Some("data:image/png;base64,null"))
  {
    var blank := Part(None, Some(InlineData(Some("image/png"), missing)));
    var image := Part(None, Some(InlineData(Some("image/png"), Text("QUJD"))));
    var parts := [blank, image];
    assert parts[1..] == [image];
    assert GenerateImageApi.FirstImage([image]) == Some(DataUriPrefix + "QUJD");
    assert ClientFirstImage(parts) == Some(DataUriPrefix + TemplateText(missing));
    var response := Response(Some([Candidate(Some(Content(Some(parts))))]));
    assert FirstCandidateParts(response) == Some(parts);
    assert DataUriPrefix + "QUJD" == "data:image/png;base64,QUJD";
    assert DataUriPrefix + "undefined" == "data:image/png;base64,undefined";
    assert DataUriPrefix + "null" == "data:image/png;base64,null";
  }

  /** What the component renders in the image frame. */
  datatype Stage = Picture(src: string) | Caption(text: string)
  datatype View = View(buttonLabel: string, buttonDisabled: bool, stage: Stage)

  class ImageGenLab {
    var prompt: string
    var loading: bool
    var resultImage: Option<string>
    /** Model calls started and not yet completed (the Enter key lets them overlap). */
    ghost var inFlight: nat

    /** A stored image is always a PNG data URI produced by the browser's decoder. */
    ghost predicate Valid()
      reads this
    {
      resultImage.Some? ==> StartsWith(resultImage.value, DataUriPrefix)
    }

    constructor ()
      ensures Valid()
      ensures prompt == "" && !loading && resultImage == None && inFlight == 0
    {
      prompt := "";
      loading := false;
      resultImage := None;
      inFlight := 0;
    }

    /** Editing the text field. */
    method SetPrompt(text: string)
      modifies this`prompt
      ensures prompt == text
    {
      prompt := text;
    }

    /**
     * The request half of generateImage: a blank prompt changes nothing and
     * calls nothing; otherwise loading is set and the untrimmed prompt is sent.
     * The previous image stays in place.
     */
    method Submit() returns (call: Option<GenerateRequest>)
      requires Valid()
      modifies this`loading, this`inFlight
      ensures Valid()
      ensures IsBlank(prompt) ==> call == None && loading == old(loading) && inFlight == old(inFlight)
      ensures !IsBlank(prompt) ==> call == Some(PromptRequest(prompt)) && loading && inFlight == old(inFlight) + 1
      ensures resultImage == old(resultImage)
    {
      TrimEmptyIffBlank(prompt);
      if Trim(prompt) == "" {
        return None;
      }
      loading := true;
      inFlight := inFlight + 1;
      call := Some(PromptRequest(prompt));
    }

    /**
     * The completion half of generateImage: decode, store the image only if
     * one was produced, and clear `loading` whatever happened.
     */
    method Complete(outcome: Outcome)
      requires Valid() && inFlight > 0
      modifies this`loading, this`resultImage, this`inFlight
      ensures Valid()
      ensures !loading && inFlight == old(inFlight) - 1
      ensures outcome.Returned? && ClientDecode(outcome.response).Some? ==>
                resultImage == ClientDecode(outcome.response)
      ensures outcome.Threw? || ClientDecode(outcome.response).None? ==> resultImage == old(resultImage)
      ensures old(resultImage).Some? ==> resultImage.Some?
    {
      if outcome.Returned? {
        var imageUrl := ClientExtractImageUrl(outcome.response);
        if imageUrl.Some? && imageUrl.value != "" {
          resultImage := imageUrl;
        }
      }
      loading := false;
      inFlight := inFlight - 1;
    }

    /** The button: disabled while loading, otherwise it submits. */
    method ClickButton() returns (call: Option<GenerateRequest>)
      requires Valid()
      modifies this`loading, this`inFlight
      ensures Valid() && resultImage == old(resultImage)
      ensures old(loading) ==> call == None && loading && inFlight == old(inFlight)
      ensures !old(loading) && !IsBlank(prompt) ==>
                call == Some(PromptRequest(prompt)) && loading && inFlight == old(inFlight) + 1
      ensures !old(loading) && IsBlank(prompt) ==> call == None && !loading && inFlight == old(inFlight)
    {
      if loading {
        return None;
      }
      call := Submit();
    }

    /** A key press in the text field: Enter submits, with no check of `loading`. */
    method PressKey(key: string) returns (call: Option<GenerateRequest>)
      requires Valid()
      modifies this`loading, this`inFlight
      ensures Valid() && resultImage == old(resultImage)
      ensures key != "Enter" ==> call == None && loading == old(loading) && inFlight == old(inFlight)
      ensures key == "Enter" && !IsBlank(prompt) ==>
                call == Some(PromptRequest(prompt)) && loading && inFlight == old(inFlight) + 1
      ensures key == "Enter" && IsBlank(prompt) ==>
                call == None && loading == old(loading) && inFlight == old(inFlight)
    {
      if key == "Enter" {
        call := Submit();
      } else {
        call := None;
      }
    }

    /** The render: the image whenever one is stored, otherwise a caption chosen by `loading`. */
    function Render(): (v: View)
      reads this
      ensures Valid() ==> (v.stage.Picture? <==> resultImage.Some?)
      ensures v.stage.Picture? ==> resultImage == Some(v.stage.src)
      ensures v.stage.Caption? ==> (v.stage.text == CaptionBusy <==> loading)
      ensures v.stage.Caption? ==> (v.stage.text == CaptionIdle <==> !loading)
      ensures v.buttonLabel == ButtonBusy <==> loading
      ensures !loading ==> v.buttonLabel == ButtonIdle
      ensures v.buttonDisabled <==> loading
    {
      View(if loading then ButtonBusy else ButtonIdle,
           loading,
           if resultImage.Some? && resultImage.value != "" then Picture(resultImage.value)
           else Caption(if loading then CaptionBusy else CaptionIdle))
    }
  }

  /** The browser's extraction loop: stops at the first part with any inline data. */
  method ClientExtractImageUrl(response: Response) returns (imageUrl: Option<string>)
    ensures imageUrl == ClientDecode(response)
  {
    imageUrl := None;
    var parts := FirstCandidateParts(response);
    if parts.Some? {
      var ps := parts.value;
      var k := 0;
      while k < |ps|
        invariant 0 <= k <= |ps|
        invariant imageUrl == None
        invariant ClientFirstImage(ps) == ClientFirstImage(ps[k..])
      {
        if ps[k].inlineData.Some? {
          imageUrl := Some(DataUriPrefix + TemplateText(ps[k].inlineData.value.data));
          break;
        }
        assert ps[k..][1..] == ps[k + 1..];
        k := k + 1;
      }
    }
  }

  /**
   * Two Enter presses before the first call returns: both calls go out, and the
   * first completion already clears `loading` while the second is outstanding.
   */
  method EnterTwiceThenOneCompletes(lab: ImageGenLab, first: Outcome)
    requires lab.Valid() && !IsBlank(lab.prompt) && lab.inFlight == 0
    modifies lab
    ensures !lab.loading && lab.inFlight == 1
  {
    var call1 := lab.PressKey("Enter");
    var call2 := lab.PressKey("Enter");
    assert call2.Some?;
    lab.Complete(first);
  }
}
