/** The two video-generation pages of the Face2-bolt front-end: the current
    page (16:9 letterboxing, video options, feedback) and the older page
    (square crop, no options). Canvas geometry is on reals, as idealised
    arithmetic; the service call is the model of `generateClinicalVideo`,
    which receives the base64 payload of the page's data URL, and the fetch
    of the finished video is a parameter. */
module VideoPages {
  import opened Base
  import opened Text
  import opened VideoService

  /* ---------- convertTo16x9 ---------- */

  const CanvasWidth: real := 1920.0
  const CanvasHeight: real := 1080.0

  /** The rectangle `drawImage` paints into. */
  datatype Rect = Rect(x: real, y: real, width: real, height: real)

  /** Every point of the rectangle lies on the canvas. */
  predicate OnCanvas(r: Rect) {
    0.0 <= r.x && 0.0 <= r.y && r.x + r.width <= CanvasWidth && r.y + r.height <= CanvasHeight
  }

  /** The margins left and right are equal, and so are those above and below. */
  predicate Centred(r: Rect) {
    r.x == CanvasWidth - (r.x + r.width) && r.y == CanvasHeight - (r.y + r.height)
  }

  function MinReal(a: real, b: real): real {
    if a <= b then a else b
  }

  /** A wide image is scaled to the canvas width: its height then fits. */
  lemma WideFits(w: real, h: real)
    requires w > 0.0 && h > 0.0 && w / h > CanvasWidth / CanvasHeight
    ensures CanvasWidth / (w / h) == CanvasWidth * h / w
    ensures CanvasWidth * h / w < CanvasHeight
    ensures CanvasWidth / w < CanvasHeight / h
  {
    assert w * CanvasHeight > CanvasWidth * h by {
      assert (w / h) * h == w;
      assert (CanvasWidth / CanvasHeight) * CanvasHeight == CanvasWidth;
    }
  }

  /** A tall (or exactly 16:9) image is scaled to the canvas height: its width then fits. */
  lemma TallFits(w: real, h: real)
    requires w > 0.0 && h > 0.0 && !(w / h > CanvasWidth / CanvasHeight)
    ensures CanvasHeight * (w / h) <= CanvasWidth
    ensures CanvasHeight / h <= CanvasWidth / w
  {
    assert w * CanvasHeight <= CanvasWidth * h by {
      assert (w / h) * h == w;
      assert (CanvasWidth / CanvasHeight) * CanvasHeight == CanvasWidth;
    }
  }

  /** `convertTo16x9`'s placement of a `w` by `h` image on the 1920 by 1080
      canvas: letterboxed when wider than 16:9, pillarboxed otherwise. */
  function Letterbox(w: real, h: real): (r: Rect)
    requires w > 0.0 && h > 0.0
    ensures OnCanvas(r) && Centred(r)
    ensures r.width > 0.0 && r.height > 0.0
    ensures r.width * h == r.height * w
    ensures r.width == CanvasWidth || r.height == CanvasHeight
  {
    var aspect := w / h;
    if aspect > CanvasWidth / CanvasHeight then
      WideFits(w, h);
      var drawHeight := CanvasWidth / aspect;
      Rect(0.0, (CanvasHeight - drawHeight) / 2.0, CanvasWidth, drawHeight)
    else
      TallFits(w, h);
      var drawWidth := CanvasHeight * aspect;
      Rect((CanvasWidth - drawWidth) / 2.0, 0.0, drawWidth, CanvasHeight)
  }

  /** The drawn image is the picture scaled by the largest factor that keeps
      it on the canvas, min(1920 / w, 1080 / h). */
  lemma LetterboxIsLargestFit(w: real, h: real)
    requires w > 0.0 && h > 0.0
    ensures Letterbox(w, h).width == w * MinReal(CanvasWidth / w, CanvasHeight / h)
    ensures Letterbox(w, h).height == h * MinReal(CanvasWidth / w, CanvasHeight / h)
  {
    if w / h > CanvasWidth / CanvasHeight {
      WideFits(w, h);
    } else {
      TallFits(w, h);
    }
  }

  /* ---------- cropImageToSquare ---------- */

  /** The source window of `drawImage(image, x, y, size, size, ...)`; the
      canvas is `size` by `size`. */
  datatype Crop = Crop(x: real, y: real, size: real)

  /** `cropImageToSquare`'s window for a `w` by `h` image. */
  function SquareCrop(w: real, h: real): (c: Crop)
    requires w >= 0.0 && h >= 0.0
    ensures c.size <= w && c.size <= h && (c.size == w || c.size == h)
    ensures 0.0 <= c.x && c.x + c.size <= w && 0.0 <= c.y && c.y + c.size <= h
    ensures c.x == 0.0 || c.y == 0.0
    ensures c.x == w - (c.x + c.size) && c.y == h - (c.y + c.size)
  {
    var size := MinReal(w, h);
    Crop((w - size) / 2.0, (h - size) / 2.0, size)
  }

  /* ---------- generateVideo ---------- */

  const NoImageError := "Please upload a composite 'before and after' photo."
  const QuotaMessage := "You've exceeded the current API usage quota. Please check your plan and billing details with Google AI Studio and try again later."
  const ErrorPrefix := "An error occurred: "
  const TryAgain := "Please try again."
  const FetchFailurePrefix := "Failed to fetch generated video: "

  /** The message of the `catch` block for an error whose `message` is
      `message`: the quota text for a rate limit, else the prefixed message. */
  function ErrorMessage(message: string): (m: string)
    ensures IsRateLimit(message) ==> m == QuotaMessage
    ensures !IsRateLimit(message) && message != "" ==> m == ErrorPrefix + message
    ensures message == "" ==> m == ErrorPrefix + TryAgain
  {
    if message != "" && IsRateLimit(message) then QuotaMessage
    else ErrorPrefix + (if message == "" then TryAgain else message)
  }

  /** The empty message is never a rate limit. */
  lemma EmptyIsNoRateLimit()
    ensures !IsRateLimit("")
  {
    assert !Includes("", "429");
    assert Upper("") == "";
    assert !Includes("", "RESOURCE_EXHAUSTED");
  }

  /** The fetch of the finished video: a local blob URL, or a failed response. */
  datatype Fetch = FetchOk(localUrl: string) | FetchFailed(status: int, statusText: string)

  /** The state `generateVideo` touches. */
  datatype Page = Page(composite: Option<string>, videoUrl: Option<string>, isLoading: bool,
                       loadingStage: int, error: Option<string>)

  /** The page after the call, whether the service was called, the request
      the video model received, if any, and every value passed to
      `setLoadingStage`, in order. */
  datatype Run = Run(page: Page, serviceCalled: bool, sent: Option<VideoRequest>, stages: seq<int>)

  /** Whether the call returned, rather than still waiting on the service. */
  predicate Settled(c: VideoCall) {
    !c.outcome.StillGenerating?
  }

  /** The stages 0, 1 and the service's, then 4 when there is a link, then
      the reset to 0 once the call returns. */
  function Stages(c: VideoCall): seq<int> {
    [0, 1] + c.progress + (if c.outcome.VideoLink? then [4] else []) + (if Settled(c) then [0] else [])
  }

  /** The `try`/`catch`/`finally` once the service has answered with `c`. */
  function Settle(page: Page, c: VideoCall, fetch: Fetch): (p: Page)
    ensures Settled(c) ==> !p.isLoading && p.loadingStage == 0
    ensures p.videoUrl.Some? <==> c.outcome.VideoLink? && fetch.FetchOk?
    ensures p.error.None? <==> !Settled(c) || p.videoUrl.Some?
    ensures c.outcome.VideoFailed? ==> p.error == Some(ErrorMessage(c.outcome.message))
    ensures p.composite == page.composite
  {
    var started := page.(isLoading := true, error := None, videoUrl := None);
    match c.outcome
    case StillGenerating => started.(loadingStage := Last(Stages(c)))
    case VideoFailed(message) => started.(isLoading := false, loadingStage := 0, error := Some(ErrorMessage(message)))
    case VideoLink(_) =>
      match fetch
      case FetchOk(localUrl) => started.(isLoading := false, loadingStage := 0, videoUrl := Some(localUrl))
      case FetchFailed(status, statusText) =>
        started.(isLoading := false, loadingStage := 0,
                 error := Some(ErrorMessage(FetchFailurePrefix + IntToString(status) + " " + statusText)))
  }

  function Last(s: seq<int>): int
    requires |s| > 0
  {
    s[|s| - 1]
  }

  /** `compositeImage.split(',')[1]`: the base64 payload of a data URL. */
  function Payload(composite: string): Option<string> {
    SecondField(composite, ',')
  }

  /** The header `toDataURL('image/png')` puts before the comma. */
  const PngDataUrlHeader := "data:image/png;base64"

  /** A PNG data URL gives back exactly its base64 data, which has no comma. */
  lemma PayloadOfPngDataUrl(data: string)
    requires ',' !in data
    ensures Payload(PngDataUrlHeader + "," + data) == Some(data)
  {
    SecondFieldOfFields(PngDataUrlHeader, data, ',', "");
  }

  /** `generateVideo` of the current page, with the user's options. */
  function GenerateVideo(page: Page, o: VideoOptions, apiKey: string,
                         veo: VideoRequest -> Result<Operation, Thrown>, replies: seq<PollReply>, fetch: Fetch): (r: Run)
    ensures r.serviceCalled <==> Present(page.composite)
    ensures !Present(page.composite) ==> r == Run(page.(error := Some(NoImageError)), false, None, [])
    ensures r.serviceCalled ==>
      var c := GenerateClinicalVideo(Payload(page.composite.value), o, apiKey, veo, replies);
      && r.sent == c.sent && r.stages == Stages(c) && r.page == Settle(page, c, fetch)
  {
    if !Present(page.composite) then Run(page.(error := Some(NoImageError)), false, None, [])
    else
      var c := GenerateClinicalVideo(Payload(page.composite.value), o, apiKey, veo, replies);
      Run(Settle(page, c, fetch), true, c.sent, Stages(c))
  }

  /** With a PNG data URL on the page and a known animation, the video model
      receives a request carrying exactly the base64 data of that URL. */
  lemma SendsCompositePayload(page: Page, o: VideoOptions, apiKey: string,
                              veo: VideoRequest -> Result<Operation, Thrown>, replies: seq<PollReply>, fetch: Fetch,
                              data: string)
    requires page.composite == Some(PngDataUrlHeader + "," + data) && ',' !in data
    requires ParseAnimation(o.primaryAnimation).Some?
    ensures var r := GenerateVideo(page, o, apiKey, veo, replies, fetch);
      r.sent.Some? && r.sent.value.imageBytes == Some(data)
  {
    PayloadOfPngDataUrl(data);
  }

  /** Once `generateVideo` returns, the spinner is off and the stage is back
      at 0; until then the stages only move forward. */
  lemma StagesAdvanceThenReset(c: VideoCall)
    requires c.progress <= [2, 3, 4]
    requires c.outcome.VideoLink? ==> c.progress == [2, 3, 4]
    ensures var s := Stages(c);
      && |s| >= 2
      && (Settled(c) ==> Last(s) == 0)
      && (forall i, j :: 0 <= i < j < |s| - (if Settled(c) then 1 else 0) ==> s[i] <= s[j])
  {
    var p := c.progress;
    assert |p| <= 3;
    assert forall k :: 0 <= k < |p| ==> p[k] == k + 2;
  }

  /** The service's own contract meets the preconditions above. */
  lemma GenerateVideoStages(page: Page, o: VideoOptions, apiKey: string,
                            veo: VideoRequest -> Result<Operation, Thrown>, replies: seq<PollReply>, fetch: Fetch)
    requires Present(page.composite)
    ensures var c := GenerateClinicalVideo(Payload(page.composite.value), o, apiKey, veo, replies);
      var r := GenerateVideo(page, o, apiKey, veo, replies, fetch);
      && (Settled(c) ==> !r.page.isLoading && r.page.loadingStage == 0 && Last(r.stages) == 0)
      && (forall i, j :: 0 <= i < j < |r.stages| - (if Settled(c) then 1 else 0) ==> r.stages[i] <= r.stages[j])
  {
    StagesAdvanceThenReset(GenerateClinicalVideo(Payload(page.composite.value), o, apiKey, veo, replies));
  }

  /** A service failure that mentions a rate limit shows the quota message;
      any other failure shows the service's message behind the prefix. */
  lemma FailureShownOnPage(page: Page, o: VideoOptions, apiKey: string,
                           veo: VideoRequest -> Result<Operation, Thrown>, replies: seq<PollReply>, fetch: Fetch)
    requires Present(page.composite)
    requires GenerateClinicalVideo(Payload(page.composite.value), o, apiKey, veo, replies).outcome.VideoFailed?
    ensures var m := GenerateClinicalVideo(Payload(page.composite.value), o, apiKey, veo, replies).outcome.message;
      var e := GenerateVideo(page, o, apiKey, veo, replies, fetch).page.error;
      && (IsRateLimit(m) ==> e == Some(QuotaMessage))
      && (!IsRateLimit(m) ==> e == Some(ErrorPrefix + m))
  {
    var m := GenerateClinicalVideo(Payload(page.composite.value), o, apiKey, veo, replies).outcome.message;
    assert m != "" by {
      assert IsPrefix(FailurePrefix, m) || m == UnknownFailure;
    }
  }

  /* ---------- the older page ---------- */

  /** `generateClinicalVideo(imageBase64, setLoadingStage)`: the state setter
      lands in the `options` parameter, and a function has none of the three
      option fields, so each reads `undefined`. */
  const OldPageOptions := VideoOptions(None, None, None)

  /** `generateVideo` of the older page, as written. */
  function OldGenerateVideo(page: Page, apiKey: string,
                            veo: VideoRequest -> Result<Operation, Thrown>, replies: seq<PollReply>, fetch: Fetch): (r: Run)
    ensures !Present(page.composite) ==> r.sent.None? && r.page.error == Some(NoImageError)
    ensures Present(page.composite) ==>
      && r.sent.None?
      && r.page.videoUrl.None?
      && r.page.error == Some(ErrorMessage(FailurePrefix + MissingSnippetMessage))
      && r.stages == [0, 1, 0]
  {
    GenerateVideo(page, OldPageOptions, apiKey, veo, replies, fetch)
  }

  /** With an image, the older page always ends with the same error, never
      reaches the video model and never shows a video, whatever the model
      would have answered. */
  lemma OldPageAlwaysFails(page: Page, apiKey: string,
                           veo: VideoRequest -> Result<Operation, Thrown>, replies: seq<PollReply>, fetch: Fetch)
    requires Present(page.composite)
    ensures var r := OldGenerateVideo(page, apiKey, veo, replies, fetch);
      && r.sent.None?
      && r.page.videoUrl.None?
      && r.page.error == Some(ErrorMessage(FailurePrefix + MissingSnippetMessage))
      && r.stages == [0, 1, 0]
  {
    var c := GenerateClinicalVideo(Payload(page.composite.value), OldPageOptions, apiKey, veo, replies);
    assert c == VideoCall(None, VideoFailed(FailurePrefix + MissingSnippetMessage), []);
  }

  /** The current page's initial choices. */
  const DefaultOptions := VideoOptions(Some("animate_before_head_turn"), Some("none"), Some("normal"))

  /** The older page calling the service with options, as the service's
      signature expects; the page's own stages follow the service's. */
  function OldGenerateVideoFixed(page: Page, apiKey: string,
                                 veo: VideoRequest -> Result<Operation, Thrown>, replies: seq<PollReply>, fetch: Fetch): (r: Run)
    ensures !Present(page.composite) ==> r.sent.None? && r.page.error == Some(NoImageError)
    ensures Present(page.composite) ==>
      r.sent.Some? && r.sent == VideoRequestFor(Payload(page.composite.value), DefaultOptions)
    ensures Present(page.composite) && DeliversLink(Payload(page.composite.value), DefaultOptions, veo, replies)
            && fetch.FetchOk? ==>
      r.page.videoUrl == Some(fetch.localUrl) && r.page.error.None? && r.stages == [0, 1, 2, 3, 4, 4, 0]
  {
    GenerateVideo(page, DefaultOptions, apiKey, veo, replies, fetch)
  }

  /** With the options passed, a video model that brings the page's request
      to an end with a link, and a video that downloads, the older page shows
      the video. */
  lemma OldPageFixedShowsVideo(page: Page, apiKey: string,
                               veo: VideoRequest -> Result<Operation, Thrown>, replies: seq<PollReply>, localUrl: string)
    requires Present(page.composite)
    requires DeliversLink(Payload(page.composite.value), DefaultOptions, veo, replies)
    ensures var r := OldGenerateVideoFixed(page, apiKey, veo, replies, FetchOk(localUrl));
      r.page.videoUrl == Some(localUrl) && r.page.error.None? && r.stages == [0, 1, 2, 3, 4, 4, 0]
  {
  }

  /* ---------- video feedback ---------- */

  datatype VideoRating = Good | Bad

  /** The feedback panel's state. */
  datatype FeedbackUi = FeedbackUi(showFeedback: bool, feedbackGiven: bool, rating: Option<VideoRating>,
                                   showDetailed: bool, category: string, isSubmitting: bool)

  /** The fields of a submitted feedback record that come from the user. */
  datatype VideoFeedback = VideoFeedback(rating: VideoRating, category: string, text: string)

  /** `submitFeedback` once its simulated call has returned: the panels close
      and the feedback counts as given. */
  function SubmitVideoFeedback(f: FeedbackUi, rating: VideoRating, category: string, text: string): (r: (FeedbackUi, VideoFeedback))
    ensures r.0.feedbackGiven && !r.0.showFeedback && !r.0.showDetailed && !r.0.isSubmitting
    ensures r.1 == VideoFeedback(rating, category, text)
    ensures r.0.rating == f.rating && r.0.category == f.category
  {
    (f.(feedbackGiven := true, showFeedback := false, showDetailed := false, isSubmitting := false),
     VideoFeedback(rating, category, text))
  }

  /** `handleFeedbackRating`: "good" is submitted at once with no category or
      text; "bad" only opens the detailed form. */
  function RateVideo(f: FeedbackUi, rating: VideoRating): (r: (FeedbackUi, Option<VideoFeedback>))
    ensures r.0.rating == Some(rating)
    ensures r.1.Some? <==> rating == Good
    ensures rating == Good ==> r.1 == Some(VideoFeedback(Good, "", "")) && r.0.feedbackGiven && !r.0.showFeedback
    ensures rating == Bad ==> r.0.showDetailed && r.0.feedbackGiven == f.feedbackGiven && r.0.showFeedback == f.showFeedback
  {
    var rated := f.(rating := Some(rating));
    match rating
    case Bad => (rated.(showDetailed := true), None)
    case Good =>
      var submitted := SubmitVideoFeedback(rated, Good, "", "");
      (submitted.0, Some(submitted.1))
  }

  /** `handleDetailedFeedback(category, text)`: records the category and
      submits a "bad" rating with it. */
  function DetailedFeedback(f: FeedbackUi, category: string, text: string): (r: (FeedbackUi, VideoFeedback))
    ensures r.1 == VideoFeedback(Bad, category, text)
    ensures r.0.category == category && r.0.feedbackGiven && !r.0.showDetailed
  {
    SubmitVideoFeedback(f.(category := category), Bad, category, text)
  }

  /** The detailed form's Cancel button: both panels close and the feedback
      counts as given, though nothing is submitted. */
  function CancelDetails(f: FeedbackUi): (r: FeedbackUi)
    ensures r.feedbackGiven && !r.showFeedback && !r.showDetailed
    ensures r.rating == f.rating && r.category == f.category && r.isSubmitting == f.isSubmitting
  {
    f.(showDetailed := false, feedbackGiven := true, showFeedback := false)
  }

  /** `handleDownload`'s delayed prompt: the panel opens only when no
      feedback has been given yet. The timer callback tests the
      `feedbackGiven` captured when the download was clicked, whereas this
      reads the value current when it fires; the two differ only when
      feedback is given within the delay, and then the panel stays hidden
      anyway, since it is rendered only while `!feedbackGiven`. */
  function AfterDownload(f: FeedbackUi): (r: FeedbackUi)
    ensures r.showFeedback <==> f.showFeedback || !f.feedbackGiven
    ensures r.feedbackGiven == f.feedbackGiven
  {
    if !f.feedbackGiven then f.(showFeedback := true) else f
  }

  /** A "bad" rating followed by Cancel submits nothing, yet the page thanks
      the user and a later download does not ask again. */
  lemma BadRatingThenCancel(f: FeedbackUi)
    ensures var (rated, sent) := RateVideo(f, Bad);
      && sent.None?
      && var done := CancelDetails(rated);
      && done.feedbackGiven && done.rating == Some(Bad)
      && !AfterDownload(done).showFeedback
  {
  }

  /** A "bad" rating followed by the detailed form submits exactly once, with
      the chosen category, and a later download does not ask again. */
  lemma BadRatingThenDetails(f: FeedbackUi, category: string, text: string)
    ensures var (rated, sent) := RateVideo(f, Bad);
      && sent.None?
      && var (done, fb) := DetailedFeedback(rated, category, text);
      && fb == VideoFeedback(Bad, category, text) && done.rating == Some(Bad)
      && !AfterDownload(done).showFeedback
  {
  }

  /** After a "good" rating a download does not reopen the feedback panel. */
  lemma GoodRatingIsFinal(f: FeedbackUi)
    ensures !AfterDownload(RateVideo(f, Good).0).showFeedback
  {
  }
}
