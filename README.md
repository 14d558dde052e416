# Image-generation request path, modelled in Dafny

This project models the image-generation path of a portfolio site. A visitor types a prompt. The prompt goes to a hosted image model (`gemini-2.5-flash-image`). The model answers with a tree of optional fields: candidates, content, parts, inline data. The first inline image in that tree becomes a `data:image/png;base64,…` URI. The path exists twice:

- **Server endpoint** `POST /api/generate-image` (`generate_image.dfy`, module `GenerateImageApi`). It checks three things in order: the method, then the prompt, then the API key. It then calls the model, scans the parts, and maps every outcome to a status and a JSON body: 200, 400, 405 or 500.
- **Browser component** "Neural Art Lab" (`image_gen_lab.dfy`, module `ImageLab`). This is a class with fields `prompt`, `loading` and `resultImage`. Its `generateImage` is split at the await:
  - `Submit` runs the blank-prompt guard and sets `loading`.
  - `Complete` decodes the answer, stores the image only if one was produced, and clears `loading`.

  The browser has its own decoder. It is weaker than the server's, and the model proves exactly where the two disagree.

Three small pieces of the page are modelled too:

- **Terminal ticker** (`terminal.dfy`). Each firing of the 800 ms interval is `Tick`. The 6 s timeout is `Reset`. The effect cleanup is `Dispose`.
- **Demo-URL normaliser** of the project cards (`project_card.dfy`).
- **JavaScript `trim`** (`js_strings.dfy`). It trims the ECMAScript WhiteSpace and LineTerminator code points. Both paths only ever ask whether trimming leaves nothing.

The upstream model's response is modelled in `genai.dfy`, and `Option` in `wrappers.dfy`. The model call is an input: `Returned(response)` or `Threw(message)`. The environment's API key is an `Option<string>` parameter. The server's `res.status(..).json(..)` becomes a returned `Reply(status, body)`. The returned `Handled` value also records the request the model received, or `None` when the model was never called.

## Behaviour worth knowing

- **Untrimmed prompt.** Trimming is used only to test for a blank prompt. Both paths send the prompt to the model exactly as typed. `Handler` and `Submit` state that the request carries `prompt` as given.
- **Enter skips the loading guard.** Only the button is disabled while `loading`. The Enter key submits with no check (`PressKey`), so two requests can overlap. `EnterTwiceThenOneCompletes` shows the first completion clearing `loading` while the second request is still outstanding.
- **The last image persists.** The browser's state is just `loading` and `resultImage`. A new submit does not clear the old image. A failed call keeps it (`Complete`). While a new request runs, an earlier image stays on screen, and the "Computing Neural Vectors..." caption appears only when no image was ever stored (`Render`).
- **Client decoder quirk.** The browser accepts a part whose inline data has no string payload. It then builds `data:image/png;base64,undefined` when the payload is undefined, and `data:image/png;base64,null` when it is null (`TemplateText`, `DecodersDisagree`). The payload is therefore modelled with three states (`GenAI.Payload`: `Undefined`, `Null`, `Text`). Everywhere else the source treats `null` and `undefined` alike, and an absent field is `None`.
- **Terminal stops after one run.** After the 6 s reset the terminal is not restarted. The interval was cleared and nothing registers it again, so the screen stays blank after one pass of the script (`Reset` ends with `!ticking`).

## Model

| member | source | states |
|---|---|---|
| `GenerateImageApi.Handler` | api/generate-image.ts:4-53 | Method not POST ⇔ 405 "Method not allowed", before anything else. POST with absent/blank prompt ⇔ 400 "Prompt is required". Then missing/empty key → 500 configuration error. The model is called iff all three checks pass, with the untrimmed prompt as its single text part. A throw → 500 with the message or the generic text. Otherwise 200 with `Decode`'s URI, or 500 "No image data in API response". 200 ⇔ an `imageUrl` body, and that URI is the PNG prefix plus a non-empty payload. Status is always one of 200/400/405/500. |
| `GenerateImageApi.ExtractImageUrl` | api/generate-image.ts:32-40 | The scan loop with `break` computes exactly `Decode(response)`. |
| `GenerateImageApi.Decode` | api/generate-image.ts:33 | These give "no image" without a fault: no candidates, an empty candidate list, a first candidate without content, or content without parts. A found URI is the PNG prefix plus a non-empty payload. |
| `GenerateImageApi.FirstImage` | api/generate-image.ts:34-39 | Every URI it yields starts with `data:image/png;base64,` and is longer than that prefix. |
| `GenerateImageApi.FirstImageAt` | api/generate-image.ts:34-38 | If part `k` is the earliest part with a non-empty payload, the result is that part's payload behind the PNG prefix, whatever the other parts hold. |
| `GenerateImageApi.FirstImageNone` | api/generate-image.ts:34-40 | "No image" exactly when no part has inline data with a non-empty payload. |
| `GenerateImageApi.FirstImageIgnoresLater` | api/generate-image.ts:36-37 | Once an image is found, appending more parts does not change the result. |
| `GenerateImageApi.FirstImageSkipsEmpty` | api/generate-image.ts:35 | Parts without image data (no inline data, or an absent or empty payload) are skipped. |
| `GenerateImageApi.ThrownMessage` | api/generate-image.ts:47-52 | The 500 body of a caught error is never empty. It is the error's message verbatim when that is non-empty, and "Failed to generate image" otherwise. |
| `JsStrings.Trim` | api/generate-image.ts:14 | No trimmable character is left at either end of the result. |
| `JsStrings.TrimRemovesBlankEnds` | api/generate-image.ts:14 | The result of `Trim` is a contiguous piece of the input, and everything cut off before and after it is whitespace/line terminators. |
| `JsStrings.TrimStartDropsBlank` | api/generate-image.ts:14 | Every character removed from the front is trimmable. |
| `JsStrings.TrimEndDropsBlank` | api/generate-image.ts:14 | Every character removed from the back is trimmable. |
| `JsStrings.TrimEmptyIffBlank` | index.tsx:351 | Trimming gives the empty string exactly when the string consists of whitespace/line terminators only. |
| `ImageLab.ClientFirstImage` | index.tsx:361-366 | Any URI it yields starts with the PNG prefix, so it is never empty. |
| `ImageLab.ClientDecode` | index.tsx:360 | These give "no image": no candidates, an empty candidate list, a first candidate without content, or content without parts. Any URI found starts with the PNG prefix and is non-empty. |
| `ImageLab.ClientExtractImageUrl` | index.tsx:359-367 | The browser's scan loop with `break` computes exactly `ClientDecode(response)`. |
| `ImageLab.TemplateText` | index.tsx:363 | A string payload is inserted verbatim. An undefined one is inserted as the text "undefined", a null one as "null". |
| `ImageLab.ClientFirstImageAt` | index.tsx:361-365 | The earliest part with any inline-data object decides the result, payload or not. |
| `ImageLab.ClientFirstImageNone` | index.tsx:360-366 | The browser finds no image exactly when no part has an inline-data object. |
| `ImageLab.ServerImageImpliesClientImage` | index.tsx:362 | Whenever the server decoder finds an image, the browser decoder finds one too. |
| `ImageLab.DecodersAtEarliestInline` | index.tsx:362-363 | At the earliest inline-data part: with a non-empty payload both decoders return the same URI. Without one, the browser answers from that part while the server's answer is its scan of the parts after it. |
| `ImageLab.NoInlineDataNoImage` | index.tsx:360-366 | With no inline data anywhere, both decoders say "no image". |
| `ImageLab.DecodersDisagree` | index.tsx:362-363 | A concrete response: an inline part whose payload is undefined or null, then a part with payload `QUJD`. The server returns `data:image/png;base64,QUJD`. The browser returns `data:image/png;base64,undefined`, or `data:image/png;base64,null` for the null payload. |
| `ImageLab.ImageGenLab.constructor` | index.tsx:346-348 | Starts with an empty prompt, not loading, no image. |
| `ImageLab.ImageGenLab.SetPrompt` | index.tsx:389 | Editing replaces the prompt and nothing else. |
| `ImageLab.ImageGenLab.Submit` | index.tsx:350-358 | Blank prompt: no call, `loading` unchanged. Otherwise `loading` becomes true and the untrimmed prompt is sent. The stored image is untouched either way. |
| `ImageLab.ImageGenLab.Complete` | index.tsx:359-373 | `loading` is false afterwards on every outcome. The image is replaced only by a decoded URI. On "no image" or a throw, the previous image is kept. A stored image is never lost. |
| `ImageLab.ImageGenLab.ClickButton` | index.tsx:394-396 | While loading, the disabled button does nothing. Otherwise it behaves as `Submit`: a blank prompt makes no call and changes nothing; a non-blank one sets `loading`, sends the untrimmed prompt and adds one outstanding request. |
| `ImageLab.ImageGenLab.PressKey` | index.tsx:390 | Enter submits regardless of `loading`: with a non-blank prompt a new call goes out even when one is in flight; with a blank prompt nothing is sent and nothing changes. Other keys do nothing. |
| `ImageLab.ImageGenLab.Render` | index.tsx:394-408 | The image is shown exactly when one is stored. Otherwise the caption is "Computing Neural Vectors..." iff loading, and "Awaiting Latent Seed" iff not. The label is "Synthesizing..." iff loading, and "Manifest" otherwise. The button is disabled iff loading. |
| `ImageLab.EnterTwiceThenOneCompletes` | index.tsx:390 | Two Enter presses and one completion leave `loading` false while one request is still outstanding. |
| `TerminalFeed.Terminal.constructor` | index.tsx:155-157 | The mounted terminal starts with counter 0, empty history, font hidden, interval running. |
| `TerminalFeed.Terminal.Tick` | index.tsx:157-163 | With `i < n`: appends `script[i]` and increments `i`. With `i == n`: shows the font, stops the interval, schedules the reset. It keeps `history == script[..i]`, and the font shows only over the full script. |
| `TerminalFeed.Terminal.Reset` | index.tsx:164-168 | Hides the font, clears the history, sets `i` to 0. The interval stays stopped. |
| `TerminalFeed.Terminal.Dispose` | index.tsx:171 | Cleanup stops the interval and changes nothing else. |
| `ProjectCard.NormaliseDemoUrl` | index.tsx:333 | The link always starts with "http" and ends with the given URL. It equals the URL iff the URL starts with "http". Otherwise it is "https://" plus the URL. |
| `ProjectCard.NormaliseIdempotent` | index.tsx:333 | Normalising twice equals normalising once. |
| `ProjectCard.DemoLink` | index.tsx:331-333 | A link exists iff the URL is present and non-empty, and it is the normalised URL. |

## Left out

- The model call itself, with the SDK client construction and the network, on both paths. Its result is the `Outcome` input.
- Logging on the failure paths and the response-object side effects. The handler returns a value instead.
- The credential the browser reads from its build environment. A missing browser key surfaces as a `Threw` outcome.
- A missing request body, and a prompt that is a truthy non-string (a number, an object). In the source the first throws when the body is destructured, the second at the `trim` call, both before the `try` block. A falsy non-string prompt (`0`, `false`, `null`) gets 400, as `None` does here, where `prompt` is an `Option<string>`.
- A thrown error whose `message` is not a string. A null error is `Threw(None)`.
- Faults inside the scan (a `null` part). Only the model call can throw here.
- Real concurrency of overlapping browser requests. Completions are sequential calls, and a ghost counter `inFlight` tracks outstanding requests.
- Timer scheduling (interval and timeout periods). Only the state changes of a firing are modelled. The fixed 15-line script is the constructor's argument.
- `TerminalFeed.Terminal.Tick`: the history updater is taken to read the counter when it is called, before the increment. React runs such an updater at once only when the component has no pending update. Otherwise it runs during the next render, after the increment. It then appends the following line, and on the last firing the text `undefined`, so the transcript can skip its first line. The model does not capture this scheduling. A development-mode double run of the effect is not modelled either.
- Auto-scrolling of the terminal and of the artifact code view. These are DOM mutations.
- `components/ArtifactCard.tsx`. It is presentation only: a streaming test on a status field of a type that is not part of this model, and a constant sandbox attribute.
- The particle field, cursor springs and tilt cards (floating-point animation), navigation, styling and static content.
- `ImageLab.ImageGenLab.Render`: only the texts, the disabled flag and the image source are modelled. Layout and classes are not.
