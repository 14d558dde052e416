/**
 * The hosted image model as both request paths see it: the request they send and
 * the nested, every-field-optional response tree they decode.
 */
module GenAI {
  import opened Wrappers

  const ImageModel: string := "gemini-2.5-flash-image"

  /** Both decoders label every image PNG, whatever media type the part declares. */
  const DataUriPrefix: string := "data:image/png;base64,"

  /** The inline payload field, which JavaScript may leave undefined, set to null, or set to a string. */
  datatype Payload = Undefined | Null | Text(text: string)

  datatype InlineData = InlineData(mimeType: Option<string>, data: Payload)
  datatype Part = Part(text: Option<string>, inlineData: Option<InlineData>)
  datatype Content = Content(parts: Option<seq<Part>>)
  datatype Candidate = Candidate(content: Option<Content>)
  datatype Response = Response(candidates: Option<seq<Candidate>>)

  /** What `generateContent` does once called: resolves with a response, or throws. */
  datatype Outcome = Returned(response: Response) | Threw(message: Option<string>)

  /** The request: the model name, and the prompt as the single text part of the contents. */
  datatype GenerateRequest = GenerateRequest(model: string, textParts: seq<string>)

  function PromptRequest(prompt: string): GenerateRequest {
    GenerateRequest(ImageModel, [prompt])
  }

  /** The first candidate's parts, when the candidate list, its first entry, that entry's content and its parts are all present. */
  function FirstCandidateParts(response: Response): Option<seq<Part>> {
    match response.candidates
    case None => None
    case Some(candidates) =>
      if |candidates| == 0 then None
      else match candidates[0].content
        case None => None
        case Some(content) => content.parts
  }
}
