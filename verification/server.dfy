/** `server.js`: the image store keyed by SHA-256 that keeps processed outputs
    from coming back as inputs, the `/api/upload`, `/api/job` and
    `/api/feedback` handlers, and `base64ToBuffer`. The in-memory maps and the
    files under `logs/` are one immutable `State`; each handler returns its
    reply together with the next state. */
module Server {
  import opened Base
  import opened Text
  import opened Platform
  import opened Jobs
  import ImageProcessor

  /* ---------- base64ToBuffer ---------- */

  const DataImagePrefix := "data:image/"
  const Base64Marker := ";base64,"

  predicate IsLowerLetter(c: char) {
    'a' <= c <= 'z'
  }

  /** Length of the run of lower-case ASCII letters `s` starts with. */
  function LetterRun(s: string): (k: nat)
    ensures k <= |s|
    ensures forall i :: 0 <= i < k ==> IsLowerLetter(s[i])
    ensures k < |s| ==> !IsLowerLetter(s[k])
    decreases |s|
  {
    if |s| > 0 && IsLowerLetter(s[0]) then 1 + LetterRun(s[1..]) else 0
  }

  /** `s.replace(/^data:image\/[a-z]+;base64,/, '')`. Since `[a-z]` cannot
      match `;`, the only candidate match is the maximal letter run. */
  function StripDataUrlPrefix(s: string): (r: string)
    ensures |r| <= |s| && r == s[|s| - |r|..]
  {
    if IsPrefix(DataImagePrefix, s) then
      var rest := s[|DataImagePrefix|..];
      var k := LetterRun(rest);
      if k > 0 && IsPrefix(Base64Marker, rest[k..]) then rest[k + |Base64Marker|..] else s
    else s
  }

  /** A data URL of any image subtype loses exactly its header. */
  lemma StripDataUrlRoundTrip(subtype: string, data: string)
    requires subtype != "" && forall i :: 0 <= i < |subtype| ==> IsLowerLetter(subtype[i])
    ensures StripDataUrlPrefix(DataImagePrefix + subtype + Base64Marker + data) == data
  {
    var s := DataImagePrefix + subtype + Base64Marker + data;
    var rest := s[|DataImagePrefix|..];
    assert IsPrefix(DataImagePrefix, s);
    assert rest == subtype + (Base64Marker + data);
    LetterRunOf(subtype, Base64Marker + data);
    assert rest[|subtype|..] == Base64Marker + data;
    assert rest[|subtype| + |Base64Marker|..] == data;
  }

  lemma {:induction false} LetterRunOf(t: string, u: string)
    requires forall i :: 0 <= i < |t| ==> IsLowerLetter(t[i])
    requires u == "" || !IsLowerLetter(u[0])
    ensures LetterRun(t + u) == |t|
    decreases |t|
  {
    if |t| > 0 {
      assert (t + u)[1..] == t[1..] + u;
      LetterRunOf(t[1..], u);
    } else {
      assert t + u == u;
    }
  }

  /** Plain base64 text passes through unchanged. */
  lemma StripKeepsPlainBase64(s: string)
    requires !IsPrefix(DataImagePrefix, s)
    ensures StripDataUrlPrefix(s) == s
  {
  }

  /** `base64ToBuffer(s)` */
  function Base64ToBuffer(env: Env, s: string): Bytes {
    env.decodeBase64(StripDataUrlPrefix(s))
  }

  /** `computeHash(base64ToBuffer(s))`: the key an uploaded string is stored under. */
  function ImageHash(env: Env, s: string): Hash {
    env.sha256(Base64ToBuffer(env, s))
  }

  /* ---------- the server's state ---------- */

  /** An `imageStore` entry: an uploaded original, or an output of a job
      (`isDerivative`). */
  datatype ImageRecord = Original(filename: string) | Derivative(jobId: string)

  /** One feedback entry, as appended to a job log and to the feedback index. */
  datatype Feedback = Feedback(jobId: string, rating: string, comment: string, timestamp: string)

  /** `logs/<jobId>.json`: the job log with its feedback list. */
  datatype LogFile = LogFile(log: JobLog, feedback: seq<Feedback>)

  datatype State = State(
    images: map<Hash, ImageRecord>,
    logs: map<string, LogFile>,
    feedbackIndex: seq<Feedback>)

  const Initial := State(map[], map[], [])

  /** `imageStore.has(h) && imageStore.get(h).isDerivative` */
  predicate IsDerivative(st: State, h: Hash) {
    h in st.images && st.images[h].Derivative?
  }

  /** Every derivative record of `st` is still a derivative record in `st'`. */
  ghost predicate KeepsDerivatives(st: State, st': State) {
    forall h :: IsDerivative(st, h) ==> IsDerivative(st', h)
  }

  /* ---------- POST /api/upload ---------- */

  const NoImageData := "No image data provided"
  const CannotReuseOutput := "Cannot reuse output images. Please use original photos only."
  const DefaultFilename := "image.jpg"

  datatype UploadReply =
    | Uploaded(sha256: Hash)
    | UploadRejected(status: int, error: string, originalRequired: bool)

  /** The `/api/upload` handler: `image` and `filename` are the body fields. */
  function Upload(env: Env, st: State, image: Option<string>, filename: Option<string>): (r: (UploadReply, State))
    ensures !Present(image) ==> r == (UploadRejected(400, NoImageData, false), st)
    ensures Present(image) && IsDerivative(st, ImageHash(env, image.value)) ==>
      r == (UploadRejected(400, CannotReuseOutput, true), st)
    ensures Present(image) && !IsDerivative(st, ImageHash(env, image.value)) ==>
      var h := ImageHash(env, image.value);
      && r.0 == Uploaded(h)
      && r.1.images == st.images[h := Original(filename.GetOr(DefaultFilename))]
      && r.1.logs == st.logs && r.1.feedbackIndex == st.feedbackIndex
  {
    if !Present(image) then (UploadRejected(400, NoImageData, false), st)
    else
      var h := ImageHash(env, image.value);
      if IsDerivative(st, h) then (UploadRejected(400, CannotReuseOutput, true), st)
      else (Uploaded(h), st.(images := st.images[h := Original(filename.GetOr(DefaultFilename))]))
  }

  /** Upload never turns a derivative back into an original, and a derivative
      can never be registered as an original. */
  lemma UploadKeepsDerivatives(env: Env, st: State, image: Option<string>, filename: Option<string>)
    ensures KeepsDerivatives(st, Upload(env, st, image, filename).1)
    ensures Upload(env, st, image, filename).0.Uploaded? ==>
      !IsDerivative(st, Upload(env, st, image, filename).0.sha256)
  {
  }

  /* ---------- POST /api/job ---------- */

  /** The fields of the `/api/job` body; absent fields are `None` or `Undefined`. */
  datatype JobRequest = JobRequest(
    mode: Option<string>,
    before: Option<string>,
    after: Option<string>,
    notes: Option<string>,
    variation: JsValue,
    beautifyIntensity: JsValue,
    alignmentVariance: JsValue,
    advanced: Option<Advanced>,
    consentVerified: Option<bool>)

  /** Why a job was refused; `ProcessingFailed` carries `error.message`. */
  datatype Rejection = InvalidMode | ValidationError | StatelessViolation | ProcessingFailed(details: string)

  datatype JobReply =
    | JobCompleted(jobId: string, imageUrl: string, jsonUrl: string)
    | JobRejected(status: int, error: string, reason: Rejection)

  const InvalidModeError := "Invalid mode. Must be \"beautify\" or \"anonymize\""
  const BothImagesError := "Beautify mode requires both before and after images"
  const BeforeDerivativeError := "Before image appears to be a processed output. Please use original images only."
  const AfterDerivativeError := "After image appears to be a processed output. Please use original images only."
  const ProcessingError := "Failed to process images"

  /** An admitted job: its parameters and the decoded input buffers. */
  datatype Admitted = Admitted(params: JobParams, before: Option<Bytes>, after: Option<Bytes>)

  /** The hashes of the present images, before first (`imageHashes`). */
  function InputHashes(env: Env, req: JobRequest): (hs: seq<Hash>)
    ensures |hs| == (if Present(req.before) then 1 else 0) + (if Present(req.after) then 1 else 0)
  {
    (if Present(req.before) then [ImageHash(env, req.before.value)] else [])
    + (if Present(req.after) then [ImageHash(env, req.after.value)] else [])
  }

  /** The `jobParams` object, with `images.before ? 1 : 0` choosing the slot of
      the after hash. */
  function BuildJobParams(env: Env, req: JobRequest, mode: Mode, jobId: string): (p: JobParams)
    ensures p.jobId == jobId && p.mode == mode
    ensures p.beforeHash == (if Present(req.before) then Some(ImageHash(env, req.before.value)) else None)
    ensures p.afterHash == (if Present(req.after) then Some(ImageHash(env, req.after.value)) else None)
    ensures p.notes == (if Present(req.notes) then req.notes.value else "")
    ensures mode == Anonymize ==> p.variation == Or(req.variation, Number(55)) && Truthy(p.variation)
    ensures mode == Beautify ==> p.beautifyIntensity == Or(req.beautifyIntensity, Number(5)) && Truthy(p.beautifyIntensity)
    ensures mode == Beautify ==> p.variation == Undefined
    ensures mode == Anonymize ==> p.beautifyIntensity == Undefined
    ensures Truthy(req.alignmentVariance) ==> p.alignmentVariance == req.alignmentVariance
    ensures !Truthy(req.alignmentVariance) ==> p.alignmentVariance == Null
    ensures mode == Anonymize ==> !p.consentVerified
    ensures mode == Beautify ==> p.consentVerified == req.consentVerified.GetOr(false)
  {
    var hs := InputHashes(env, req);
    JobParams(
      jobId, mode,
      if Present(req.before) then Some(hs[0]) else None,
      if Present(req.after) then Some(hs[if Present(req.before) then 1 else 0]) else None,
      if Present(req.notes) then req.notes.value else "",
      if mode == Anonymize then Or(req.variation, Number(55)) else Undefined,
      if mode == Beautify then Or(req.beautifyIntensity, Number(5)) else Undefined,
      Or(req.alignmentVariance, Null),
      req.advanced.GetOr(NoAdvanced),
      if mode == Beautify then req.consentVerified.GetOr(false) else false)
  }

  /** The decoded buffer of a present image, `null` otherwise. */
  function InputBuffer(env: Env, image: Option<string>): (b: Option<Bytes>)
    ensures b.Some? <==> Present(image)
  {
    if Present(image) then Some(Base64ToBuffer(env, image.value)) else None
  }

  /** The checks of `/api/job` up to the creation of the job, in source order:
      mode, image count (beautify only), then the derivative check of the
      before image and of the after image. */
  function Admit(env: Env, st: State, req: JobRequest, jobId: string): (r: Result<Admitted, JobReply>)
    ensures ParseMode(req.mode).None? ==> r == Failure(JobRejected(400, InvalidModeError, InvalidMode))
    ensures r.Failure? ==> r.error.JobRejected? && r.error.status == 400
    ensures r.Success? <==>
      && ParseMode(req.mode).Some?
      && (ParseMode(req.mode) == Some(Beautify) ==> Present(req.before) && Present(req.after))
      && !(Present(req.before) && IsDerivative(st, ImageHash(env, req.before.value)))
      && !(Present(req.after) && IsDerivative(st, ImageHash(env, req.after.value)))
    ensures r.Success? ==>
      && r.value.params == BuildJobParams(env, req, ParseMode(req.mode).value, jobId)
      && r.value.before == InputBuffer(env, req.before)
      && r.value.after == InputBuffer(env, req.after)
  {
    match ParseMode(req.mode)
    case None => Failure(JobRejected(400, InvalidModeError, InvalidMode))
    case Some(mode) =>
      if mode == Beautify && (!Present(req.before) || !Present(req.after)) then
        Failure(JobRejected(400, BothImagesError, ValidationError))
      else if Present(req.before) && IsDerivative(st, ImageHash(env, req.before.value)) then
        Failure(JobRejected(400, BeforeDerivativeError, StatelessViolation))
      else if Present(req.after) && IsDerivative(st, ImageHash(env, req.after.value)) then
        Failure(JobRejected(400, AfterDerivativeError, StatelessViolation))
      else
        Success(Admitted(BuildJobParams(env, req, mode, jobId),
                         InputBuffer(env, req.before), InputBuffer(env, req.after)))
  }

  /** The image processor entry point for the job's mode. */
  function RunJob(env: Env, a: Admitted): Result<JobOutput, string> {
    if a.params.mode == Beautify then ImageProcessor.BeautifyPhotos(env, a.before, a.after, a.params)
    else ImageProcessor.AnonymizePhotos(env, a.before, a.after, a.params)
  }

  /** What the handler does with the image processor's outcome: on success it
      writes the log and marks the output's hash as a derivative; a thrown
      error becomes a 500 reply and leaves the store as it was. */
  function CompleteJob(env: Env, st: State, jobId: string, outcome: Result<JobOutput, string>): (r: (JobReply, State))
    ensures outcome.Failure? ==> r == (JobRejected(500, ProcessingError, ProcessingFailed(outcome.error)), st)
    ensures outcome.Success? ==>
      && r.0 == JobCompleted(jobId, "/outputs/" + jobId + ".png", "/logs/" + jobId + ".json")
      && IsDerivative(r.1, env.sha256(outcome.value.composite))
      && r.1.logs == st.logs[jobId := LogFile(outcome.value.log, [])]
      && r.1.feedbackIndex == st.feedbackIndex
      && (forall h :: h != env.sha256(outcome.value.composite) && h in st.images ==>
            h in r.1.images && r.1.images[h] == st.images[h])
  {
    match outcome
    case Failure(e) => (JobRejected(500, ProcessingError, ProcessingFailed(e)), st)
    case Success(out) =>
      var h := env.sha256(out.composite);
      (JobCompleted(jobId, "/outputs/" + jobId + ".png", "/logs/" + jobId + ".json"),
       st.(images := st.images[h := Derivative(jobId)],
           logs := st.logs[jobId := LogFile(out.log, [])]))
  }

  /** The `/api/job` handler; `jobId` stands for the fresh `generateJobId()`. */
  function SubmitJob(env: Env, st: State, req: JobRequest, jobId: string): (r: (JobReply, State))
    ensures Admit(env, st, req, jobId).Failure? ==> r == (Admit(env, st, req, jobId).error, st)
    ensures Admit(env, st, req, jobId).Success? ==>
      r == CompleteJob(env, st, jobId, RunJob(env, Admit(env, st, req, jobId).value))
  {
    match Admit(env, st, req, jobId)
    case Failure(reply) => (reply, st)
    case Success(a) => CompleteJob(env, st, jobId, RunJob(env, a))
  }

  /** A submitted image whose hash is recorded as a derivative never starts a
      job; the before image is checked first, so when both are derivatives the
      reply names the before image. */
  lemma DerivativeInputRejected(env: Env, st: State, req: JobRequest, jobId: string)
    requires || (Present(req.before) && IsDerivative(st, ImageHash(env, req.before.value)))
             || (Present(req.after) && IsDerivative(st, ImageHash(env, req.after.value)))
    ensures Admit(env, st, req, jobId).Failure?
    ensures SubmitJob(env, st, req, jobId).1 == st
    ensures ParseMode(req.mode) == Some(Anonymize) || (ParseMode(req.mode).Some? && Present(req.before) && Present(req.after)) ==>
      Admit(env, st, req, jobId).error.reason == StatelessViolation
    ensures ParseMode(req.mode).Some? && Present(req.before) && Present(req.after) && IsDerivative(st, ImageHash(env, req.before.value)) ==>
      Admit(env, st, req, jobId).error == JobRejected(400, BeforeDerivativeError, StatelessViolation)
  {
  }

  /** Completing a job, whatever the image processor returned, keeps every
      derivative record. */
  lemma CompleteJobKeepsDerivatives(env: Env, st: State, jobId: string, outcome: Result<JobOutput, string>)
    ensures KeepsDerivatives(st, CompleteJob(env, st, jobId, outcome).1)
  {
  }

  lemma SubmitJobKeepsDerivatives(env: Env, st: State, req: JobRequest, jobId: string)
    ensures KeepsDerivatives(st, SubmitJob(env, st, req, jobId).1)
  {
    if Admit(env, st, req, jobId).Success? {
      CompleteJobKeepsDerivatives(env, st, jobId, RunJob(env, Admit(env, st, req, jobId).value));
    }
  }

  /** Anonymize with no image at all passes every check of the handler and is
      refused only by the image processor, as a 500 reply. */
  lemma AnonymizeWithoutImagesFailsLate(env: Env, st: State, req: JobRequest, jobId: string)
    requires req.mode == Some("anonymize") && !Present(req.before) && !Present(req.after)
    ensures Admit(env, st, req, jobId).Success?
    ensures SubmitJob(env, st, req, jobId) ==
      (JobRejected(500, ProcessingError, ProcessingFailed(ImageProcessor.AnonymizeNeedsImage)), st)
  {
    var a := Admit(env, st, req, jobId).value;
    assert a.before.None? && a.after.None?;
  }

  /* ---------- POST /api/feedback ---------- */

  const InvalidFeedback := "Invalid feedback. Requires job_id and rating (\"up\" or \"down\")"

  datatype FeedbackReply = FeedbackRecorded(feedbackId: string) | FeedbackRejected(status: int, error: string)

  predicate ValidRating(rating: Option<string>) {
    rating == Some("up") || rating == Some("down")
  }

  /** The `/api/feedback` handler; `now` stands for the ISO timestamp. A job
      without a log file only gets its entry in the feedback index (the read
      error is swallowed). */
  function SubmitFeedback(st: State, jobId: Option<string>, rating: Option<string>, comment: Option<string>, now: string): (r: (FeedbackReply, State))
    ensures r.0.FeedbackRejected? <==> !Present(jobId) || !ValidRating(rating)
    ensures r.0.FeedbackRejected? ==> r == (FeedbackRejected(400, InvalidFeedback), st)
    ensures r.0.FeedbackRecorded? ==>
      var fb := Feedback(jobId.value, rating.value, if Present(comment) then comment.value else "", now);
      && r.0.feedbackId == now
      && r.1.images == st.images
      && r.1.feedbackIndex == st.feedbackIndex + [fb]
      && r.1.logs.Keys == st.logs.Keys
      && (jobId.value in st.logs ==>
            r.1.logs[jobId.value] == st.logs[jobId.value].(feedback := st.logs[jobId.value].feedback + [fb]))
      && (forall j :: j in st.logs && j != jobId.value ==> r.1.logs[j] == st.logs[j])
  {
    if !Present(jobId) || !ValidRating(rating) then (FeedbackRejected(400, InvalidFeedback), st)
    else
      var id := jobId.value;
      var fb := Feedback(id, rating.value, if Present(comment) then comment.value else "", now);
      var logs := if id in st.logs then st.logs[id := st.logs[id].(feedback := st.logs[id].feedback + [fb])] else st.logs;
      (FeedbackRecorded(now), st.(logs := logs, feedbackIndex := st.feedbackIndex + [fb]))
  }

  /* ---------- any sequence of requests ---------- */

  /** One request to the server, with the fresh job id or timestamp its
      handler would generate. */
  datatype Request =
    | UploadRequest(image: Option<string>, filename: Option<string>)
    | JobSubmission(job: JobRequest, jobId: string)
    | FeedbackRequest(feedbackJob: Option<string>, rating: Option<string>, comment: Option<string>, now: string)

  function Step(env: Env, st: State, q: Request): State {
    match q
    case UploadRequest(image, filename) => Upload(env, st, image, filename).1
    case JobSubmission(job, jobId) => SubmitJob(env, st, job, jobId).1
    case FeedbackRequest(jobId, rating, comment, now) => SubmitFeedback(st, jobId, rating, comment, now).1
  }

  /** The state after serving `qs` in order, each request to completion
      before the next begins. */
  function Replay(env: Env, st: State, qs: seq<Request>): State
    decreases |qs|
  {
    if |qs| == 0 then st else Replay(env, Step(env, st, qs[0]), qs[1..])
  }

  lemma StepKeepsDerivatives(env: Env, st: State, q: Request)
    ensures KeepsDerivatives(st, Step(env, st, q))
  {
    match q
    case UploadRequest(image, filename) =>
      UploadKeepsDerivatives(env, st, image, filename);
      assert Step(env, st, q) == Upload(env, st, image, filename).1;
    case JobSubmission(job, jobId) =>
      SubmitJobKeepsDerivatives(env, st, job, jobId);
      assert Step(env, st, q) == SubmitJob(env, st, job, jobId).1;
    case FeedbackRequest(jobId, rating, comment, now) =>
      var next := SubmitFeedback(st, jobId, rating, comment, now).1;
      assert next.images == st.images;
      assert Step(env, st, q) == next;
  }

  /** No sequence of requests ever removes or downgrades a derivative record. */
  lemma {:induction false} ReplayKeepsDerivatives(env: Env, st: State, qs: seq<Request>)
    ensures KeepsDerivatives(st, Replay(env, st, qs))
    decreases |qs|
  {
    if |qs| > 0 {
      var next := Step(env, st, qs[0]);
      StepKeepsDerivatives(env, st, qs[0]);
      ReplayKeepsDerivatives(env, next, qs[1..]);
      forall h | IsDerivative(st, h)
        ensures IsDerivative(Replay(env, st, qs), h)
      {
        assert IsDerivative(next, h);
      }
    }
  }

  /** Once a job has produced an output, that output can never be uploaded or
      used as the input of a job, whatever requests come in between. */
  lemma OutputNeverReturns(env: Env, st: State, jobId: string, out: JobOutput, qs: seq<Request>,
                           image: string, filename: Option<string>, req: JobRequest, jobId': string)
    requires image != "" && ImageHash(env, image) == env.sha256(out.composite)
    requires req.before == Some(image) || req.after == Some(image)
    ensures var later := Replay(env, CompleteJob(env, st, jobId, Success(out)).1, qs);
      && Upload(env, later, Some(image), filename) == (UploadRejected(400, CannotReuseOutput, true), later)
      && Admit(env, later, req, jobId').Failure?
      && SubmitJob(env, later, req, jobId').1 == later
  {
    var done := CompleteJob(env, st, jobId, Success(out)).1;
    ReplayKeepsDerivatives(env, done, qs);
    var later := Replay(env, done, qs);
    assert IsDerivative(later, ImageHash(env, image));
    DerivativeInputRejected(env, later, req, jobId');
  }

  /** The feedback index is append-only: a request adds at most one entry, at
      the end, and only a valid feedback request adds one. */
  lemma StepExtendsFeedbackIndex(env: Env, st: State, q: Request)
    ensures var fi := Step(env, st, q).feedbackIndex;
      && |st.feedbackIndex| <= |fi| <= |st.feedbackIndex| + 1
      && fi[..|st.feedbackIndex|] == st.feedbackIndex
      && (|fi| > |st.feedbackIndex| <==> q.FeedbackRequest? && Present(q.feedbackJob) && ValidRating(q.rating))
  {
    match q
    case UploadRequest(image, filename) =>
    case JobSubmission(job, jobId) =>
      if Admit(env, st, job, jobId).Success? {
        var outcome := RunJob(env, Admit(env, st, job, jobId).value);
        assert Step(env, st, q) == CompleteJob(env, st, jobId, outcome).1;
      }
    case FeedbackRequest(jobId, rating, comment, now) =>
      if Present(jobId) && ValidRating(rating) {
        var fb := Feedback(jobId.value, rating.value, if Present(comment) then comment.value else "", now);
        assert Step(env, st, q).feedbackIndex == st.feedbackIndex + [fb];
      }
  }

  /** Earlier feedback is never lost or reordered. */
  lemma {:induction false} ReplayExtendsFeedbackIndex(env: Env, st: State, qs: seq<Request>)
    ensures var fi := Replay(env, st, qs).feedbackIndex;
      |st.feedbackIndex| <= |fi| && fi[..|st.feedbackIndex|] == st.feedbackIndex
    decreases |qs|
  {
    if |qs| > 0 {
      var next := Step(env, st, qs[0]);
      StepExtendsFeedbackIndex(env, st, qs[0]);
      ReplayExtendsFeedbackIndex(env, next, qs[1..]);
      var fi := Replay(env, st, qs).feedbackIndex;
      assert fi[..|next.feedbackIndex|] == next.feedbackIndex;
      assert fi[..|st.feedbackIndex|] == next.feedbackIndex[..|st.feedbackIndex|];
    }
  }
}
