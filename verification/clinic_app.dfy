/** The Face2 single-page client: its form state, the input rule that
    enables the Process button, the `/api/job` payload it posts, and the
    image, feedback and reset handlers. Browser plumbing (FileReader, fetch,
    alerts) is replaced by values: a handler returns the request it would
    send. */
module ClinicApp {
  import opened Base
  import opened Text
  import opened Platform
  import opened Jobs
  import Server

  datatype EyeColor = RandomEye | Hazel | Green | Gray | Brown

  function EyeColorName(c: EyeColor): string {
    match c
    case RandomEye => "random"
    case Hazel => "hazel"
    case Green => "green"
    case Gray => "gray"
    case Brown => "brown"
  }

  datatype Slot = BeforeSlot | AfterSlot

  datatype Rating = Up | Down

  function RatingName(r: Rating): string {
    match r
    case Up => "up"
    case Down => "down"
  }

  /** The `ProcessingData` a completed job returns. */
  datatype Results = Results(jobId: string, imageUrl: string, jsonUrl: Option<string>)

  /** The component's state; an image is a data URL or `None` for `null`. */
  datatype Ui = Ui(
    mode: Mode,
    before: Option<string>,
    after: Option<string>,
    isProcessing: bool,
    results: Option<Results>,
    showAdvanced: bool,
    feedbackRating: Option<Rating>,
    eyeColor: EyeColor,
    notes: string,
    strength: JsNumber,
    alignment: JsNumber,
    intensity: JsNumber,
    hairMicroVariation: bool,
    clothingTypeLock: bool,
    feedbackComment: string)

  /** The alignment slider position that stands for "Auto". */
  const AutoAlignment := 12

  /** The `useState` initial values. */
  const Initial := Ui(Beautify, None, None, false, None, false, None, RandomEye, "",
                      55, AutoAlignment, 5, true, true, "")

  /* ---------- the sliders ---------- */

  datatype Knob = Strength | Alignment | Intensity

  /** The `min`/`max` attributes of each range input. */
  function KnobMin(k: Knob): int {
    match k
    case Strength => 15
    case Alignment => 5
    case Intensity => 1
  }

  function KnobMax(k: Knob): int {
    match k
    case Strength => 100
    case Alignment => 20
    case Intensity => 10
  }

  function KnobValue(ui: Ui, k: Knob): int {
    match k
    case Strength => ui.strength
    case Alignment => ui.alignment
    case Intensity => ui.intensity
  }

  /** Every slider value lies in its range input's domain. */
  predicate InDomain(ui: Ui, k: Knob) {
    KnobMin(k) <= KnobValue(ui, k) <= KnobMax(k)
  }

  predicate KnobsInDomain(ui: Ui) {
    InDomain(ui, Strength) && InDomain(ui, Alignment) && InDomain(ui, Intensity)
  }

  /** The value a range input reports: the browser's value sanitisation for
      the range state clamps to `[min, max]` (integer steps of 1). */
  function RangeValue(k: Knob, requested: int): (v: int)
    ensures KnobMin(k) <= v <= KnobMax(k)
    ensures KnobMin(k) <= requested <= KnobMax(k) ==> v == requested
  {
    if requested < KnobMin(k) then KnobMin(k)
    else if requested > KnobMax(k) then KnobMax(k)
    else requested
  }

  /** A slider's `onChange`: `parseInt(e.target.value)` of the sanitised value. */
  function MoveSlider(ui: Ui, k: Knob, requested: int): (r: Ui)
    ensures KnobValue(r, k) == RangeValue(k, requested)
    ensures forall j: Knob :: j != k ==> KnobValue(r, j) == KnobValue(ui, j)
    ensures r.mode == ui.mode && r.before == ui.before && r.after == ui.after && r.results == ui.results
  {
    match k
    case Strength => ui.(strength := RangeValue(k, requested))
    case Alignment => ui.(alignment := RangeValue(k, requested))
    case Intensity => ui.(intensity := RangeValue(k, requested))
  }

  /* ---------- images and the input rule ---------- */

  function SlotImage(ui: Ui, s: Slot): Option<string> {
    match s
    case BeforeSlot => ui.before
    case AfterSlot => ui.after
  }

  /** `handleFileUpload` once the reader has produced `dataUrl`: a file whose
      type does not start with "image/" is refused and nothing changes. */
  function UploadFile(ui: Ui, s: Slot, fileType: string, dataUrl: string): (r: Ui)
    ensures !IsPrefix("image/", fileType) ==> r == ui
    ensures IsPrefix("image/", fileType) ==> SlotImage(r, s) == Some(dataUrl)
    ensures forall o: Slot :: o != s ==> SlotImage(r, o) == SlotImage(ui, o)
  {
    if !IsPrefix("image/", fileType) then ui
    else match s
      case BeforeSlot => ui.(before := Some(dataUrl))
      case AfterSlot => ui.(after := Some(dataUrl))
  }

  /** `removeImage(type)`: only the named slot is cleared. */
  function RemoveImage(ui: Ui, s: Slot): (r: Ui)
    ensures SlotImage(r, s) == None
    ensures forall o: Slot :: o != s ==> SlotImage(r, o) == SlotImage(ui, o)
    ensures r.mode == ui.mode && r.results == ui.results && r.notes == ui.notes
    ensures forall k: Knob :: KnobValue(r, k) == KnobValue(ui, k)
  {
    match s
    case BeforeSlot => ui.(before := None)
    case AfterSlot => ui.(after := None)
  }

  /** Removing a slot after filling it is the same as removing it straight away. */
  lemma RemoveUndoesUpload(ui: Ui, s: Slot, fileType: string, dataUrl: string)
    ensures RemoveImage(UploadFile(ui, s, fileType, dataUrl), s) == RemoveImage(ui, s)
  {
  }

  /** `isValidInput()`, as a truth value: both images in beautify mode, at
      least one in anonymize mode. */
  predicate ValidInput(ui: Ui) {
    match ui.mode
    case Beautify => Present(ui.before) && Present(ui.after)
    case Anonymize => Present(ui.before) || Present(ui.after)
  }

  /** Removing either image in beautify mode disables processing; in anonymize
      mode it does so exactly when the other slot is empty too. */
  lemma RemoveImageValidity(ui: Ui, s: Slot)
    ensures ui.mode == Beautify ==> !ValidInput(RemoveImage(ui, s))
    ensures ui.mode == Anonymize ==>
      (ValidInput(RemoveImage(ui, s)) <==> Present(SlotImage(ui, if s == BeforeSlot then AfterSlot else BeforeSlot)))
  {
  }

  /* ---------- the job payload ---------- */

  /** The `advanced` object; eye colour is sent in anonymize mode only. */
  function AdvancedOf(ui: Ui): Advanced {
    Advanced(Some(ui.hairMicroVariation), Some(ui.clothingTypeLock), Some(true),
             if ui.mode == Anonymize then Some(EyeColorName(ui.eyeColor)) else None)
  }

  /** `processImages`: nothing is sent unless the input is valid; otherwise the
      `/api/job` body as the server parses it (keys holding `undefined` are
      dropped by `JSON.stringify`, `null` stays). */
  function ProcessImages(ui: Ui): (r: Option<Server.JobRequest>)
    ensures r.Some? <==> ValidInput(ui)
    ensures r.Some? ==>
      var q := r.value;
      && q.mode == Some(ModeName(ui.mode))
      && q.before == ui.before && q.after == ui.after && q.notes == Some(ui.notes)
      && (q.variation != Undefined <==> ui.mode == Anonymize)
      && (ui.mode == Anonymize ==> q.variation == Number(ui.strength))
      && (q.beautifyIntensity != Undefined <==> ui.mode == Beautify)
      && (ui.mode == Beautify ==> q.beautifyIntensity == Number(ui.intensity))
      && (q.alignmentVariance == Null <==> ui.alignment == AutoAlignment)
      && (ui.alignment != AutoAlignment ==> q.alignmentVariance == Number(ui.alignment))
      && q.advanced.Some? && (q.advanced.value.eyeColor.Some? <==> ui.mode == Anonymize)
      && q.consentVerified == Some(ui.mode == Beautify)
  {
    if !ValidInput(ui) then None
    else
      Some(Server.JobRequest(
        Some(ModeName(ui.mode)), ui.before, ui.after, Some(ui.notes),
        if ui.mode == Anonymize then Number(ui.strength) else Undefined,
        if ui.mode == Beautify then Number(ui.intensity) else Undefined,
        if ui.alignment == AutoAlignment then Null else Number(ui.alignment),
        Some(AdvancedOf(ui)),
        Some(ui.mode == Beautify)))
  }

  /** A payload the client sends never fails the server's mode or image-count
      checks: the server either admits it or rejects an image as a derivative. */
  lemma PayloadPassesValidation(env: Env, st: Server.State, ui: Ui, jobId: string)
    requires ValidInput(ui)
    ensures ProcessImages(ui).Some?
    ensures var r := Server.Admit(env, st, ProcessImages(ui).value, jobId);
      r.Success? || r.error.reason.StatelessViolation?
  {
    var q := ProcessImages(ui).value;
    assert ParseMode(q.mode) == Some(ui.mode) by {
      if ui.mode == Beautify { assert ModeName(ui.mode) == "beautify"; }
      else { assert ModeName(ui.mode) == "anonymize"; }
    }
  }

  /** The "Auto" alignment position reaches the image processor as `null`,
      which it keeps, and the Gemini service renders as automatic. */
  lemma AutoAlignmentStaysAuto(env: Env, ui: Ui, jobId: string)
    requires ValidInput(ui) && ui.alignment == AutoAlignment
    ensures ProcessImages(ui).Some?
    ensures Server.BuildJobParams(env, ProcessImages(ui).value, ui.mode, jobId).alignmentVariance == Null
  {
  }

  /* ---------- replies, feedback and reset ---------- */

  /** The `alert` text of a failed job: the server's `error` field, or a fixed
      text when it is empty. */
  function FailureAlert(error: string): string {
    "Error processing images: " + (if error == "" then "Processing failed" else error)
  }

  /** The end of `processImages`: a completed job's reply becomes `results`;
      a rejection leaves them and yields the alert. `isProcessing` is cleared
      either way. */
  function ProcessingDone(ui: Ui, reply: Server.JobReply): (r: (Ui, Option<string>))
    ensures !r.0.isProcessing
    ensures reply.JobCompleted? ==>
      r.1 == None && r.0.results == Some(Results(reply.jobId, reply.imageUrl, Some(reply.jsonUrl)))
    ensures reply.JobRejected? ==> r.0.results == ui.results && r.1.Some?
    ensures r.0.mode == ui.mode && r.0.before == ui.before && r.0.after == ui.after
  {
    match reply
    case JobCompleted(jobId, imageUrl, jsonUrl) =>
      (ui.(isProcessing := false, results := Some(Results(jobId, imageUrl, Some(jsonUrl)))), None)
    case JobRejected(_, error, _) =>
      (ui.(isProcessing := false), Some(FailureAlert(error)))
  }

  /** The `/api/feedback` body. */
  datatype FeedbackPost = FeedbackPost(jobId: string, rating: Rating, comment: string)

  /** `submitFeedback(rating)`: without a job id nothing happens; otherwise
      the rating is shown and the feedback is posted. */
  function SubmitFeedback(ui: Ui, rating: Rating): (r: (Ui, Option<FeedbackPost>))
    ensures r.1.None? <==> ui.results.None? || ui.results.value.jobId == ""
    ensures r.1.None? ==> r.0 == ui
    ensures r.1.Some? ==>
      && r.0 == ui.(feedbackRating := Some(rating))
      && r.1.value == FeedbackPost(ui.results.value.jobId, rating, ui.feedbackComment)
  {
    if ui.results.None? || ui.results.value.jobId == "" then (ui, None)
    else (ui.(feedbackRating := Some(rating)),
          Some(FeedbackPost(ui.results.value.jobId, rating, ui.feedbackComment)))
  }

  /** Feedback the client posts always passes the server's validation and is
      appended to the feedback index. */
  lemma PostedFeedbackAccepted(st: Server.State, ui: Ui, rating: Rating, now: string)
    requires SubmitFeedback(ui, rating).1.Some?
    ensures var p := SubmitFeedback(ui, rating).1.value;
      var r := Server.SubmitFeedback(st, Some(p.jobId), Some(RatingName(p.rating)), Some(p.comment), now);
      r.0.FeedbackRecorded? && |r.1.feedbackIndex| == |st.feedbackIndex| + 1
  {
    var p := SubmitFeedback(ui, rating).1.value;
    assert Server.ValidRating(Some(RatingName(p.rating))) by {
      if p.rating == Up { assert RatingName(p.rating) == "up"; } else { assert RatingName(p.rating) == "down"; }
    }
  }

  /** `resetApp`: images, results, notes, comment and rating are cleared and
      the knobs and eye colour return to their initial values; the mode, the
      advanced toggles and the panel state are kept. */
  function ResetApp(ui: Ui): (r: Ui)
    ensures r == Initial.(mode := ui.mode, isProcessing := ui.isProcessing, showAdvanced := ui.showAdvanced,
                          hairMicroVariation := ui.hairMicroVariation, clothingTypeLock := ui.clothingTypeLock)
    ensures KnobsInDomain(r) && !ValidInput(r)
  {
    ui.(before := None, after := None, results := None, notes := "", feedbackComment := "",
        strength := 55, alignment := AutoAlignment, intensity := 5, eyeColor := RandomEye,
        feedbackRating := None)
  }

  /* ---------- the event loop ---------- */

  /** The user actions that change the form. */
  datatype Event =
    | SelectMode(mode: Mode)
    | Upload(slot: Slot, fileType: string, dataUrl: string)
    | Remove(slot: Slot)
    | Slide(knob: Knob, requested: int)
    | PickEyeColor(color: EyeColor)
    | ToggleHair(on: bool)
    | ToggleClothing(on: bool)
    | EditNotes(text: string)
    | EditComment(text: string)
    | Reset

  function Apply(ui: Ui, e: Event): Ui {
    match e
    case SelectMode(m) => ui.(mode := m)
    case Upload(s, t, d) => UploadFile(ui, s, t, d)
    case Remove(s) => RemoveImage(ui, s)
    case Slide(k, v) => MoveSlider(ui, k, v)
    case PickEyeColor(c) => ui.(eyeColor := c)
    case ToggleHair(b) => ui.(hairMicroVariation := b)
    case ToggleClothing(b) => ui.(clothingTypeLock := b)
    case EditNotes(t) => ui.(notes := t)
    case EditComment(t) => ui.(feedbackComment := t)
    case Reset => ResetApp(ui)
  }

  function ApplyAll(ui: Ui, es: seq<Event>): Ui
    decreases |es|
  {
    if |es| == 0 then ui else ApplyAll(Apply(ui, es[0]), es[1..])
  }

  /** No single action takes a slider out of its domain. */
  lemma ApplyKeepsKnobs(ui: Ui, e: Event)
    requires KnobsInDomain(ui)
    ensures KnobsInDomain(Apply(ui, e))
  {
    if e.Slide? {
      assert InDomain(Apply(ui, e), e.knob);
    }
  }

  /** From a state whose sliders are in range, whatever the user does, every
      slider value stays in its input's domain. */
  lemma {:induction false} KnobsStayInDomain(ui: Ui, es: seq<Event>)
    requires KnobsInDomain(ui)
    ensures KnobsInDomain(ApplyAll(ui, es))
    decreases |es|
  {
    if |es| > 0 {
      ApplyKeepsKnobs(ui, es[0]);
      KnobsStayInDomain(Apply(ui, es[0]), es[1..]);
    }
  }

  /** The initial sliders (55, "Auto" 12, 5) are in range. */
  lemma InitialKnobsInDomain()
    ensures KnobsInDomain(Initial)
  {
  }
}
