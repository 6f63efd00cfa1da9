# Face2 clinical photo pipeline, in Dafny

This project models the deterministic core of Face2, a clinical before/after
photo service, and its two web front-ends. It covers the following parts:

- **`server.js`**: the job server.
  - It keeps an image store keyed by SHA-256, so that, with requests handled one at a time, a processed output never comes back as an input.
  - It handles `/api/upload`, `/api/job` and `/api/feedback`, and strips the data-URL header in `base64ToBuffer`.
- **`imageProcessor.js`**: the image processor.
  - It normalises parameters with `clampInt` over `Number.parseInt`.
  - It applies a per-mode failure policy: beautify falls back to a local polish, and anonymize rethrows.
  - Neither policy covers a photo that `sharp` cannot read when the input composite is built before the `try` (beautify, and anonymize with two photos): that error escapes unchanged. A single anonymize photo is not read before the `try`. It either succeeds unread, when the image model answers, or the service's decode error is replaced by "Anonymization failed. No unsafe fallback executed."
  - It builds two 800×800 composite layouts.
- **`geminiService.js`**: the AI-service layer.
  - It clamps the knobs and guards the input sizes.
  - It renders the per-job directive and takes the first image from the model's reply.
  - It runs a local fallback that branches on which images are present, and centres the panels of a 1200×1200 composite.
- **`gemini.service.ts`**: the video service.
  - It assembles the prompt from fixed snippets.
  - It polls the operation, with exponential backoff on rate limits.
  - It maps every failure to a single message.
- **The front-ends**:
  - the clinic form (`src/App.tsx`): input validity, the job payload, image slots, reset, feedback and slider domains;
  - the two video pages: 16:9 letterboxing, square cropping, stage and error handling, and video feedback;
  - the FAQ search of the support page;
  - the route guard.

Conventions used throughout the model:

- **Collaborators as parameters.** The code calls things it does not implement: base64 decoding, SHA-256, `sharp` (whether it can read a buffer, the error it throws when it cannot, PNG encoding and metadata), the Gemini image model, and the Veo video model. These are parameters. `Platform.Env` is a record of total functions. The video model is a function from the request to the operation it starts, and the replies to the polls that follow are a script of values.
- **Symbolic pictures.** A `Platform.Picture` records which operations produced it. No pixels are computed.
- **State.** Server state is an immutable `Server.State`. Each handler returns its reply together with the next state, and handlers run one at a time.
- **Geometry.** The integer composite layouts use `int`. Front-end canvas geometry uses `real`, as idealised arithmetic.

Where the program's own comments and prompt text promise more than its code does, the model follows the code:

- **Anonymize with no image.** The system instruction says a zero-image anonymize job generates a pair (geminiService.js:151, :209). In the code, the server admits the job, the image processor throws (imageProcessor.js:22-24), and the reply is a 500.
- **Beautify consent.** The header comments say beautify needs `consent_on_file === true` (imageProcessor.js:4, :61). The consent check has been removed from the code (imageProcessor.js:68).
- **The zero-image placeholder.** The system instruction asks for a 1200×1200 square output (geminiService.js:164). The local placeholder is 1200×600 (geminiService.js:286-287).
- **The anonymize fallback.** Anonymize claims it never falls back to a non-anonymizing process (imageProcessor.js:16, :55). Yet the service behind it returns its own basic fallback as a success.

## Model

| member | source | states |
|---|---|---|
| Jobs.ParseMode | Downloads/Face2/server.js:138-140 | a mode is accepted exactly when it is "beautify" or "anonymize", and the accepted mode prints back as the requested text |
| Server.StripDataUrlPrefix | Downloads/Face2/server.js:51-55 | the text handed to the base64 decoder is always a suffix of the uploaded string |
| Server.StripDataUrlRoundTrip | Downloads/Face2/server.js:51-55 | a data URL `data:image/<letters>;base64,<data>` strips back to exactly `<data>`, for every lower-case subtype |
| Server.StripKeepsPlainBase64 | Downloads/Face2/server.js:51-55 | text that does not start with the data-URL header is decoded unchanged |
| Server.Upload | Downloads/Face2/server.js:69-102 | a missing image gets a 400 and the state is unchanged; an image whose hash is a derivative gets a 400 with `original_required` and the state is unchanged; any other image is recorded as an original under its hash, and logs and feedback are untouched |
| Server.UploadKeepsDerivatives | Downloads/Face2/server.js:82-102 | an upload never removes or downgrades a derivative record, and never registers a derivative hash as an original |
| Server.BuildJobParams | Downloads/Face2/server.js:181-197 | each present image's hash lands in its own slot whether or not `before` is present; variation defaults to 55 in anonymize only, intensity to 5 in beautify only, and the other mode's knob is undefined; a falsy alignment becomes null; consent is forced false in anonymize |
| Server.Admit | Downloads/Face2/server.js:136-176 | an invalid mode is rejected before any image is examined; a job is admitted exactly when the mode is valid, beautify has both images, and no present image's hash is a derivative; every rejection here is a 400 |
| Server.DerivativeInputRejected | Downloads/Face2/server.js:153-176 | a submitted image recorded as a derivative never starts a job and leaves the state unchanged; in anonymize, or with both images present, the reason is a statelessness violation; with both present and the before image a derivative, the reply names the before image |
| Server.CompleteJob | Downloads/Face2/server.js:214-262 | on success the output's hash becomes a derivative, the job log is written with no feedback, and every other image record is kept; a processing error becomes a 500 carrying its message, and the state is unchanged |
| Server.SubmitJob | Downloads/Face2/server.js:121-263 | a rejected job replies with the admission error and changes nothing; an admitted job runs the image processor for its mode and completes with that outcome |
| Server.CompleteJobKeepsDerivatives | Downloads/Face2/server.js:233-240 | completing a job never removes a derivative record, whatever the processor returned |
| Server.SubmitJobKeepsDerivatives | Downloads/Face2/server.js:121-263 | a job submission never removes a derivative record |
| Server.AnonymizeWithoutImagesFailsLate | Downloads/Face2/server.js:145-150 | anonymize with no image passes every check of the handler, then fails in the image processor as a 500 whose details are the processor's "at least one image" message |
| Server.SubmitFeedback | Downloads/Face2/server.js:269-300 | feedback is rejected exactly when `job_id` is absent or the rating is not "up" or "down"; accepted feedback is appended at the end of the feedback index and, when that job has a log, at the end of its log; all other logs are kept, and the image store is untouched |
| Server.StepKeepsDerivatives | Downloads/Face2/server.js:69-300 | no single request of any kind removes or downgrades a derivative record |
| Server.ReplayKeepsDerivatives | Downloads/Face2/server.js:69-300 | no sequence of requests removes or downgrades a derivative record |
| Server.OutputNeverReturns | Downloads/Face2/server.js:233-240 | once a job has produced an output, an upload of that output is refused, and so is a job using it, whatever requests come in between |
| Server.StepExtendsFeedbackIndex | Downloads/Face2/server.js:289-297 | a request adds at most one feedback entry, at the end; earlier entries are kept; and only a valid feedback request adds one |
| Server.ReplayExtendsFeedbackIndex | Downloads/Face2/server.js:289-297 | over any sequence of requests, earlier feedback is never lost or reordered |
| ImageProcessor.ParseIntOfDecimal | Downloads/Face2/imageProcessor.js:325 | `parseInt` reads back the decimal text of any integer, stopping at the first following non-digit |
| ImageProcessor.ClampInt | Downloads/Face2/imageProcessor.js:324-328 | the result always lies in [min, max]; unparseable input gives min; a parsed value inside the range is kept and one outside it is clamped |
| ImageProcessor.ClampIntOfNumber | Downloads/Face2/imageProcessor.js:324-328 | on a number, `clampInt` is the plain clamp |
| ImageProcessor.NormalizeAnonymize | Downloads/Face2/imageProcessor.js:296-311 | mode is anonymize; variation is in [15, 100], default 55; a null or undefined alignment stays as it is, and any other alignment is clamped to [5, 20]; job id, notes and advanced are carried over |
| ImageProcessor.NormalizeBeautify | Downloads/Face2/imageProcessor.js:313-322 | mode is beautify; intensity is in [1, 10], default 5; alignment and variation pass through |
| ImageProcessor.NormalizedKnobsSurviveService | Downloads/Face2/geminiService.js:16-18 | after normalisation, the service's own clamps leave variation and intensity unchanged |
| ImageProcessor.InputCanvas | Downloads/Face2/imageProcessor.js:153-155 | the input layout tiles [0, 800) exactly: panels of 398 at 0 and 402, and a 4-px divider at 398 |
| ImageProcessor.PolishCanvas | Downloads/Face2/imageProcessor.js:226-228 | the polish layout tiles [0, 800) exactly: panels of 399 at 0 and 401, and a 2-px divider at 399 |
| ImageProcessor.InputComposite | Downloads/Face2/imageProcessor.js:149-216 | the model's input is an 800-square white canvas with both photos cropped to fill 398×800 at x = 0 and x = 402, and a white divider at x = 398 |
| ImageProcessor.CreateInputComposite | Downloads/Face2/imageProcessor.js:149-216 | building the input composite succeeds exactly when `sharp` can read both photos, giving the PNG of the input composite; otherwise it fails with the error of the before photo if that one is unreadable, else of the after photo |
| ImageProcessor.PolishComposite | Downloads/Face2/imageProcessor.js:222-279 | the polish output puts both pictures, fitted inside 399×800, at x = 0 and x = 401, with a grey 2-px divider at x = 399 |
| ImageProcessor.PolishGateIff | Downloads/Face2/imageProcessor.js:110-121 | the polish step (modulate and sharpen) runs exactly when the clamped intensity is 4 or more |
| ImageProcessor.FallbackBeautification | Downloads/Face2/imageProcessor.js:106-142 | the local polish succeeds exactly when `sharp` can read both photos, and otherwise fails with `sharp`'s error for an unreadable photo, the before photo's when both are unreadable (see "## Left out"); a success is logged in beautify mode with status "completed_fallback" and the clamped intensity, and composes both polished photos side by side |
| ImageProcessor.AnonymizePhotos | Downloads/Face2/imageProcessor.js:18-57 | with no buffer it fails with the "at least one image" message; with two, an unreadable photo makes the input composite fail before the `try`, and that error comes back unchanged; otherwise the service's success is returned unchanged, and any service error becomes "Anonymization failed" |
| ImageProcessor.BeautifyPhotos | Downloads/Face2/imageProcessor.js:65-98 | with a buffer missing it fails; an unreadable photo makes the input composite fail before the `try`, and that error comes back unchanged; otherwise the service's success is returned, and a service error is replaced by the local polish |
| ImageProcessor.BeautifyFailsOnlyOnUnreadable | Downloads/Face2/imageProcessor.js:65-98 | with both photos, beautify yields an output exactly when `sharp` can read both, whatever the model does; otherwise it fails with the error of the first photo it cannot read; there is no consent check |
| ImageProcessor.AnonymizeFailureCases | Downloads/Face2/imageProcessor.js:18-57 | anonymize fails exactly when there is no photo, when `sharp` cannot read one of two photos, when the buffer it sends is under 200 bytes, or when the model gives no image and `sharp` cannot read that buffer; it never returns the beautify polish |
| ImageProcessor.AnonymizeReturnsServiceFallback | Downloads/Face2/imageProcessor.js:42-56 | when the model returns no image for a buffer `sharp` can read, anonymize still succeeds with the service's basic fallback: the input beside a hue-shifted copy of itself; for a buffer it cannot read, it fails with "Anonymization failed" |
| Geometry.SplitCanvas | Downloads/Face2/geminiService.js:367-374 | two equal panels and a divider tile the square's columns exactly, with the divider centred |
| Geometry.CentreOffset | Downloads/Face2/geminiService.js:405-408 | the offset is never negative; when the picture fits, it stays inside the box and the two margins differ by at most one, with any extra pixel on the far side |
| GeminiService.ClampKnob | Downloads/Face2/geminiService.js:16-18 | the knob lies in [lo, hi]; absent or zero gives the default; any other value is kept inside the range and clamped outside it |
| GeminiService.SystemPromptCarriesRules | Downloads/Face2/geminiService.js:132-236 | the fixed system instruction, the same for every job, carries the statelessness section and the missing-notes rules |
| GeminiService.NotesFallbackIff | Downloads/Face2/geminiService.js:247-250 | the notes block is the fixed fallback line exactly when the notes are empty or white space |
| GeminiService.DirectiveShowsFallbackLine | Downloads/Face2/geminiService.js:247-274 | empty or white-space notes put "NO NOTES PROVIDED → Use system fallback rules for this mode." in the directive |
| GeminiService.DirectiveShowsNotes | Downloads/Face2/geminiService.js:247-274 | any other notes appear, trimmed, in the directive right after the "NOTES (authoritative if present):" heading and a line break |
| GeminiService.HeaderLineInDirective | Downloads/Face2/geminiService.js:262-274 | every line of the mode header appears in the directive |
| GeminiService.AnonymizeDirectiveShowsKnobs | Downloads/Face2/geminiService.js:242-244 | an anonymize directive shows the mode, the variation, the alignment (either "N% (override)" or "auto (5–20%)") and the advanced toggles |
| GeminiService.BeautifyDirectiveShowsIntensity | Downloads/Face2/geminiService.js:245 | a beautify directive shows the mode, the intensity and the advanced toggles |
| GeminiService.InputGuard | Downloads/Face2/geminiService.js:39-48 | the guards pass exactly when some image is present and every present image has at least 200 bytes |
| GeminiService.FirstInline | Downloads/Face2/geminiService.js:84-89 | the result is the data of the first part carrying non-empty inline data, and none exactly when no part carries any |
| GeminiService.ExtractImage | Downloads/Face2/geminiService.js:82-95 | a failed call or an empty candidate list yields no image; otherwise only the first candidate is searched |
| GeminiService.OutputCanvas | Downloads/Face2/geminiService.js:367-369 | the output layout tiles [0, 1200): panels of 598 at 0 and 602, and a 4-px divider at 598 |
| GeminiService.PanelFill | Downloads/Face2/geminiService.js:385-417 | a panel is a white 598×1200 canvas holding the picture fitted inside it, centred to within one pixel and never placed outside |
| GeminiService.OutputComposite | Downloads/Face2/geminiService.js:430-444 | the output is a white 1200-square canvas holding the left panel at 0, a grey 4-px divider at 598, and the right panel at 602 |
| GeminiService.FallbackPanels | Downloads/Face2/geminiService.js:324-343 | with both images each panel shows its own image; with before only, anonymize shows a hue-shifted copy that differs from the left panel, while beautify duplicates the left panel; with after only both panels are the after image |
| GeminiService.Placeholder | Downloads/Face2/geminiService.js:284-293 | the placeholder is a blank 1200×600 canvas, not a square |
| GeminiService.FallbackProcessing | Downloads/Face2/geminiService.js:278-361 | with no image it is the placeholder logged as a placeholder; otherwise it fails exactly when `sharp` cannot read a present image, with the error of the first such image, before image first; a success is the composite of the fallback panels logged as basic enhancement; every success has status "completed" |
| GeminiService.ModelRequest | Downloads/Face2/geminiService.js:25-79 | the model receives the fixed policy, the directive built from the clamped knobs, and the present images with before first |
| GeminiService.ProcessJob | Downloads/Face2/geminiService.js:12-125 | a rejected input fails with the guard's message; otherwise a returned image is decoded and logged as the model's answer, the log recording the job, the mode, the clamped variation and intensity, the alignment override or "auto" when it is absent, and whether the notes hold more than white space; a reply without an image, or a failed call, gives whatever the local fallback gives |
| GeminiService.ProcessJobFailsIff | Downloads/Face2/geminiService.js:12-125 | the job fails exactly when the input guards reject it, or the model gives no image and `sharp` cannot read one of the inputs |
| GeminiService.SuccessLoggedAsAiOrBasic | Downloads/Face2/geminiService.js:100-124 | a successful job is logged either as the model's answer or as the basic fallback |
| GeminiService.SingleAnonymizeFallback | Downloads/Face2/geminiService.js:330-345 | a single anonymize input without a model image yields its fallback composite beside its hue-shifted copy when `sharp` can read it, and `sharp`'s error when it cannot |
| GeminiService.ModelFailureFallsBack | Downloads/Face2/geminiService.js:91-124 | once the guards pass, a reply without an image ends in the local fallback: the job succeeds, logged as the basic fallback, exactly when `sharp` can read every input, and otherwise fails with `sharp`'s error for the first input it cannot read |
| VideoService.ParseAnimation | Downloads/Face2-bolt/src/pages/generate/gemini.service.ts:21-38 | each of the four animation keys selects its own snippet pair; every other key selects none |
| VideoService.ParseEmphasis | Downloads/Face2-bolt/src/pages/generate/gemini.service.ts:41-45 | the keys "none", "hand_gesture" and "subtle_zoom" select their snippets; every other key selects none |
| VideoService.ParsePace | Downloads/Face2-bolt/src/pages/generate/gemini.service.ts:48-52 | the keys "slow", "normal" and "fast" select their snippets; every other key selects none |
| VideoService.AssembleIsJoin | Downloads/Face2-bolt/src/pages/generate/gemini.service.ts:68 | the prompt template is its four blocks joined by blank lines, in order, with the pacing label before the speed text |
| VideoService.VideoPromptBlocks | Downloads/Face2-bolt/src/pages/generate/gemini.service.ts:55-68 | the prompt is the base, the before instruction, the after instruction with the emphasis appended, and the pacing, joined by blank lines; the emphasis is appended to the after instruction only |
| VideoService.NoEmphasisAddsNothing | Downloads/Face2-bolt/src/pages/generate/gemini.service.ts:41-45 | emphasis "none" appends the empty string |
| VideoService.NextDelay | Downloads/Face2-bolt/src/pages/generate/gemini.service.ts:85-101 | a successful poll resets the delay to 10 s; a failed poll never shortens it, and a rate-limited one doubles it as long as the double stays within the 60 s cap; the delay stays within [10 s, 60 s] |
| VideoService.WaitsSpec | Downloads/Face2-bolt/src/pages/generate/gemini.service.ts:88-107 | the loop waits at most once per poll; the first wait is the starting delay; every wait lies in [10 s, 60 s] |
| VideoService.PollOperation | Downloads/Face2-bolt/src/pages/generate/gemini.service.ts:85-107 | the loop as written ends as the recursive reading does, with the same waits; every wait lies in [10 s, 60 s] |
| VideoService.RateLimitStreakWaits | Downloads/Face2-bolt/src/pages/generate/gemini.service.ts:97-101 | while every poll is rate limited, the i-th wait is the first delay doubled i times, capped at 60 s, and the loop never stops |
| VideoService.VideoRequestFor | Downloads/Face2-bolt/src/pages/generate/gemini.service.ts:58-81 | a request is made exactly when the animation key is known, with model "veo-2.0-generate-001", the given image bytes as PNG, one video, and the animation and options the prompt is built from |
| VideoService.GenerateClinicalVideo | Downloads/Face2-bolt/src/pages/generate/gemini.service.ts:12-124 | the video model receives exactly the request built from the image and options, or nothing when the animation key is unknown; progress is a prefix of 2, 3, 4; an unknown animation key fails before any progress; a link is returned exactly when the model, given that request, starts an operation that polling finishes with a URI, and the link is that URI plus "&key=" plus the key; every failure message has the fixed prefix or is the unknown-error text |
| VideoPages.Letterbox | Downloads/Face2-bolt/src/pages/generate/NewGenerate.tsx:16-43 | the drawn rectangle lies on the 1920×1080 canvas, is centred both ways, keeps the image's aspect ratio, and fills the full width or the full height |
| VideoPages.LetterboxIsLargestFit | Downloads/Face2-bolt/src/pages/generate/NewGenerate.tsx:26-43 | the image is scaled by min(1920/w, 1080/h), the largest factor that keeps it on the canvas |
| VideoPages.SquareCrop | Downloads/Face2-bolt/src/pages/generate/index_old.tsx:16-23 | the crop is min(w, h) square, lies inside the image, is centred, and has at least one zero offset |
| VideoPages.ErrorMessage | Downloads/Face2-bolt/src/pages/generate/NewGenerate.tsx:147-153 | a rate-limit message maps to the fixed quota text; any other message gets the "An error occurred: " prefix; an empty message gets "Please try again." |
| VideoPages.Settle | Downloads/Face2-bolt/src/pages/generate/NewGenerate.tsx:128-157 | once the service returns, the spinner is off and the stage is 0; a video is shown exactly when there is a link and its fetch succeeds; once the call has returned, an error is shown exactly when no video is; a service failure shows its mapped message |
| VideoPages.GenerateVideo | Downloads/Face2-bolt/src/pages/generate/NewGenerate.tsx:116-158 | the service is called exactly when there is a composite image, with the text after the data URL's first comma; without an image the page only shows the upload error |
| Text.SecondField | Downloads/Face2-bolt/src/pages/generate/NewGenerate.tsx:130 | `split(',')[1]` is undefined exactly when the text has no comma, and is otherwise a text without a comma |
| Text.SecondFieldOfFields | Downloads/Face2-bolt/src/pages/generate/NewGenerate.tsx:130 | splitting fields joined by the separator gives back the second field, whatever follows it |
| VideoPages.PayloadOfPngDataUrl | Downloads/Face2-bolt/src/pages/generate/NewGenerate.tsx:130 | the payload of a PNG data URL is exactly its base64 data |
| VideoPages.SendsCompositePayload | Downloads/Face2-bolt/src/pages/generate/NewGenerate.tsx:128-133 | with a PNG data URL on the page and a known animation, the video model receives the base64 data of that URL as the image bytes |
| VideoPages.StagesAdvanceThenReset | Downloads/Face2-bolt/src/pages/generate/NewGenerate.tsx:122-157 | the loading stages only move forward until the final reset to 0 |
| VideoPages.GenerateVideoStages | Downloads/Face2-bolt/src/pages/generate/NewGenerate.tsx:154-157 | after every call that returns, isLoading is false and the last stage is 0; until then the stages never go back |
| VideoPages.FailureShownOnPage | Downloads/Face2-bolt/src/pages/generate/NewGenerate.tsx:147-153 | a service failure that mentions a rate limit shows the quota text; any other failure shows the service's message behind the prefix |
| VideoPages.OldGenerateVideo | Downloads/Face2-bolt/src/pages/generate/index_old.tsx:79-120 | the older page as written: without an image it shows the no-image error; with one it never sends a request, never shows a video, shows the missing-snippet error and passes through stages 0, 1, 0 |
| VideoPages.OldGenerateVideoFixed | Downloads/Face2-bolt/src/pages/generate/index_old.tsx:79-120 | the older page with options passed: with an image it sends the request built from the default options, and a video model that delivers a link plus a successful download show the video with stages 0, 1, 2, 3, 4, 4, 0 |
| VideoPages.OldPageAlwaysFails | Downloads/Face2-bolt/src/pages/generate/index_old.tsx:79-120 | with an image, the older page as written always ends with the missing-snippet error, with stages 0, 1, 0, no request to the video model and no video, whatever the video model would answer |
| VideoPages.OldPageFixedShowsVideo | Downloads/Face2-bolt/src/pages/generate/index_old.tsx:95 | when the call passes options, a video model that brings the page's request to an end with a link whose video downloads has that video shown, with stages 0, 1, 2, 3, 4, 4, 0 |
| VideoPages.SubmitVideoFeedback | Downloads/Face2-bolt/src/pages/generate/NewGenerate.tsx:205-242 | a submission closes both panels, marks feedback as given, and sends a record of the rating, category and text |
| VideoPages.RateVideo | Downloads/Face2-bolt/src/pages/generate/NewGenerate.tsx:190-198 | "good" is submitted at once with empty category and text; "bad" submits nothing and opens the detailed form |
| VideoPages.DetailedFeedback | Downloads/Face2-bolt/src/pages/generate/NewGenerate.tsx:200-203 | the detailed form submits a "bad" rating with its category and text |
| VideoPages.AfterDownload | Downloads/Face2-bolt/src/pages/generate/NewGenerate.tsx:176-180 | after a download the feedback panel is shown exactly when it already was or no feedback has been given; whether feedback was given is unchanged |
| VideoPages.CancelDetails | Downloads/Face2-bolt/src/pages/generate/NewGenerate.tsx:566-571 | Cancel on the detailed form closes both panels and marks feedback as given, leaving the rating and category as they were |
| VideoPages.BadRatingThenCancel | Downloads/Face2-bolt/src/pages/generate/NewGenerate.tsx:566-571 | a "bad" rating followed by Cancel submits nothing, yet feedback counts as given, so the thanks shows and a later download does not ask again |
| VideoPages.BadRatingThenDetails | Downloads/Face2-bolt/src/pages/generate/NewGenerate.tsx:176-203 | a "bad" rating followed by the detailed form submits once, with the chosen category, and a later download does not ask again |
| VideoPages.GoodRatingIsFinal | Downloads/Face2-bolt/src/pages/generate/NewGenerate.tsx:176-198 | after a "good" rating, a download does not reopen the feedback panel |
| ClinicApp.RangeValue | Downloads/Face2/src/App.tsx:355-362 | the value a slider reports always lies in its input's [min, max]; a value inside the range is kept |
| ClinicApp.MoveSlider | Downloads/Face2/src/App.tsx:355-403 | moving a slider sets only that knob, to the reported value; the other knobs, the mode and the images are unchanged |
| ClinicApp.UploadFile | Downloads/Face2/src/App.tsx:57-73 | a file whose type is not "image/…" changes nothing; otherwise only the named slot receives the data URL |
| ClinicApp.RemoveImage | Downloads/Face2/src/App.tsx:75-81 | only the named slot is cleared; the other image, the mode, the results, the notes and the knobs are unchanged |
| ClinicApp.RemoveUndoesUpload | Downloads/Face2/src/App.tsx:57-81 | removing a slot after filling it leaves the same state as removing it directly |
| ClinicApp.RemoveImageValidity | Downloads/Face2/src/App.tsx:75-88 | removing either image in beautify mode makes the input invalid; in anonymize mode the input stays valid exactly when the other slot holds an image |
| ClinicApp.ProcessImages | Downloads/Face2/src/App.tsx:90-112 | a payload is sent exactly when the input is valid (beautify with both images, anonymize with at least one); variation and eye colour are sent only in anonymize, intensity only in beautify; alignment 12 is sent as null and any other value unchanged; consent is true exactly in beautify |
| ClinicApp.PayloadPassesValidation | Downloads/Face2/src/App.tsx:90-112 | a payload the client sends never fails the server's mode or image-count checks; the server either admits it or reports a derivative image |
| ClinicApp.AutoAlignmentStaysAuto | Downloads/Face2/src/App.tsx:104 | the "Auto" slider position reaches the job parameters as null |
| ClinicApp.ProcessingDone | Downloads/Face2/src/App.tsx:114-135 | processing always ends; a completed job becomes the results; a rejection keeps the earlier results and raises an alert |
| ClinicApp.SubmitFeedback | Downloads/Face2/src/App.tsx:138-158 | without a job id nothing happens; otherwise the rating is shown, and the job id, rating and comment are posted |
| ClinicApp.PostedFeedbackAccepted | Downloads/Face2/src/App.tsx:138-158 | feedback the client posts always passes the server's validation and adds exactly one entry to the feedback index |
| ClinicApp.ResetApp | Downloads/Face2/src/App.tsx:160-171 | reset restores the initial images, results, notes, comment, rating, knobs (55, 12, 5) and eye colour "random", and keeps the mode and the toggles; the result has valid knobs and no valid input |
| ClinicApp.ApplyKeepsKnobs | Downloads/Face2/src/App.tsx:355-403 | no single user action moves a slider out of its domain |
| ClinicApp.KnobsStayInDomain | Downloads/Face2/src/App.tsx:355-403 | from sliders in range, any sequence of user actions keeps every slider in [15, 100], [5, 20] and [1, 10] |
| ClinicApp.InitialKnobsInDomain | Downloads/Face2/src/App.tsx:38-40 | the initial slider values are within their domains |
| SupportPage.FilteredFaqs | Downloads/Face2-bolt/src/pages/Support.tsx:53-58 | the one-pass filter computes the entry-by-entry filter |
| SupportPage.FilterIsSubsequence | Downloads/Face2-bolt/src/pages/Support.tsx:53-58 | the result is an order-preserving subsequence of the FAQ list |
| SupportPage.FilterMembership | Downloads/Face2-bolt/src/pages/Support.tsx:53-57 | an entry is in the result exactly when it is in the list and matches both the search and the category |
| SupportPage.CategoryRespected | Downloads/Face2-bolt/src/pages/Support.tsx:56 | unless the category is "all", every result has the selected category |
| SupportPage.EmptyQueryListsAll | Downloads/Face2-bolt/src/pages/Support.tsx:53-58 | an empty query in category "all" lists every entry, in order |
| SupportPage.QueryCaseIgnored | Downloads/Face2-bolt/src/pages/Support.tsx:54-55 | the search gives the same answer for a query and its lower-cased form |
| SupportPage.FaqPanel | Downloads/Face2-bolt/src/pages/Support.tsx:262-270 | "No results found" is shown exactly when no entry is kept; otherwise the non-empty filtered list is shown |
| RouteGuard.Guard | Downloads/Face2-bolt/src/components/auth/ProtectedRoute.tsx:10-44 | while loading the spinner shows; a signed-out user is sent to /login with the current location; a dashboard redirect only happens for a profile without an active subscription; the page shows exactly when loaded, signed in, and not blocked by the subscription rule |
| RouteGuard.FreePlanNeverActive | Downloads/Face2-bolt/src/components/auth/ProtectedRoute.tsx:34-35 | a "free" plan is never an active subscription, whatever its status |
| RouteGuard.SubscriptionOnlyRestricts | Downloads/Face2-bolt/src/components/auth/ProtectedRoute.tsx:33-43 | requiring a subscription only ever turns the page into a dashboard redirect |
| RouteGuard.SignedInSeesPage | Downloads/Face2-bolt/src/components/auth/ProtectedRoute.tsx:33-43 | without the flag, or with no profile loaded, a signed-in user sees the page |

## Left out

- The job store and `GET /api/job/:id` are left out. The job store only echoes the job's parameters and log, and nothing else reads it.
- File writes and reads are left out: uploads, outputs, logs and the feedback index file. They are modelled as fields of `Server.State`, so a failing log read or write is not modelled.
- Express routing, static serving, JSON parsing limits, `global.gc` and the process handlers are left out.
- Timestamps, processing times and `generateJobId` are parameters, because they depend on the clock or on randomness.
- The `console` output of every handler is left out.
- Pixel operations are left out: resize, modulate, sharpen and PNG encoding. Pictures are symbolic.
  - A PNG re-encode between `sharp` steps is treated as the identity.
  - The measured size of a resized picture comes from `Env.measure`.
- SHA-256, base64 decoding, the Gemini image model and the Veo video model are parameters, because they are foreign code.
- Numeric fields are JavaScript numbers restricted to integers of magnitude below 10^21 (`Base.JsNumber`). A non-integer variation or intensity is not modelled.
- `ImageProcessor.ClampInt`: numbers of magnitude 10^21 or more are not modelled. JavaScript prints them in exponent form ("1e+21"), and `parseInt` then reads only the leading digit, so a variation of 1e21 clamps to 15, not 100.
- `ImageProcessor.ClampIntOfNumber`: it covers numbers below 10^21 in magnitude only, for the same reason; from 10^21 on, `clampInt` of a number is not the plain clamp.
- `ImageProcessor.ParseIntOfDecimal`: the model's `parseInt` keeps every digit exactly, whereas JavaScript rounds a digit string beyond 2^53 to the nearest double. The clamps are unaffected, since that rounding never carries a value across a clamp bound of 1 to 100.
- Letter case is mapped for ASCII letters only, in `toLowerCase` and `toUpperCase`; no Unicode case mapping is modelled. `trim` removes the full JavaScript white-space and line-terminator set.
- A knob value that names an inherited object property is left out, since the snippet tables are read as plain maps.
- `ImageProcessor.AnonymizeInput`: the single buffer that anonymize sends is stated by its definition alone. It is a helper.
- `GeminiService.FallbackProcessing`: with both images present, the two `sharp` pipelines run under `Promise.all`, and the error that escapes is whichever rejects first. The model always reports the before image's error. Whether `sharp` can read its own PNG output is also left to `Env.decodes`.
- `ImageProcessor.FallbackBeautification`: the two polish pipelines run under `Promise.all` (imageProcessor.js:125), so when both photos are unreadable the error that escapes is whichever pipeline rejects first. The model always reports the before photo's error. `BeautifyPhotos` never reaches this case, because the input composite has already failed on an unreadable photo.
- `Server.ReplayKeepsDerivatives`: handlers are modelled one at a time, but Node interleaves them at every `await`. In `/api/upload`, the derivative check (server.js:82) and the write of the original record (server.js:94-101) sit on either side of `await fs.writeFile` (server.js:91). A job that marks the same hash as a derivative in that window (server.js:234-240) is overwritten, and the record is downgraded to an original.
- `Server.OutputNeverReturns`: it holds for requests handled one at a time. An upload of a job's output that interleaves with that job, as in the window above, can record the output as an original.
- `Server.ReplayExtendsFeedbackIndex`: it holds for requests handled one at a time. Two concurrent feedback posts can both read `feedback_index.json` (server.js:307) before either writes it (server.js:315), and then one entry is lost.
- The request bodies are typed to the shapes the clinic client sends. The model does not cover the following:
  - Any `advanced` object is forwarded as it is to `JSON.stringify`. Extra keys, key order, non-boolean toggles and control characters are not covered, and `Jobs.JsonEscape` escapes only `"` and `\`.
  - A `filename` of `null` cannot be represented.
  - A non-string `images.before`, which throws in `base64ToBuffer`, cannot be represented.
- `VideoService.PollOperation`: the loop runs over a finite script of replies. A script that ends before the operation is done is reported as still polling, which stands for a loop that has not returned yet. The `setTimeout` waits are reported, not awaited.
- `Server.Base64ToBuffer`: a data URL whose header has no comma after it is decoded as written. What the base64 decoder does with such text is up to `Env.decodeBase64`.
- The FAQ entries and the category buttons are page content. The filter is modelled over any list of entries.
- The video feedback record's URL, image hash, timestamp, user agent and the simulated 500 ms call are left out, because they are browser plumbing.
- Canvas, `FileReader`, `Blob`, download and the video fetch are left out. The fetch's outcome is a parameter of `VideoPages.GenerateVideo`.
- `VideoPages.GenerateVideo`: the fetch outcome has no rejected case. A network failure ("Failed to fetch") or a failing `blob()` would reach the `catch` with the browser's own message, which the model does not cover.
- `VideoService.GenerateClinicalVideo`: the unknown-animation error uses V8's wording, "Cannot read properties of undefined (reading 'before')". Other JavaScript engines word that TypeError differently.
- `VideoPages.Letterbox`: it requires a positive width and height. The page loads an image that has already decoded, so a zero-size image is not modelled.
- `GeminiService.SystemPolicy`: the policy text is kept only as its section headings, in order. The prose under each heading is fixed text that no parameter changes.
- The marketing, legal, dashboard and Stripe/Firebase pages and services are left out. They hold no logic beyond calls into those platforms.

## Findings

| source | as written | input that shows it | evidently intended | confidence | as-written member | corrected member |
|---|---|---|---|---|---|---|
| Downloads/Face2-bolt/src/pages/generate/index_old.tsx:95 | `generateClinicalVideo(imageBase64, setLoadingStage)` passes the state setter as the `options` argument. Its three option fields are then undefined, and reading the snippet of an undefined animation throws a TypeError before any request is made. | any uploaded composite image | pass an options object, as the current page does, with the setter as the progress callback | high (not executed) | VideoPages.OldGenerateVideo, with VideoPages.OldPageAlwaysFails | VideoPages.OldGenerateVideoFixed, with VideoPages.OldPageFixedShowsVideo |
