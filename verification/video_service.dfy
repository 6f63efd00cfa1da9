/** `generateClinicalVideo` of the video front-end: the prompt assembled from
    fixed snippets, the start of the generation, the polling loop with its
    rate-limit backoff, and the mapping of every failure to one message. The
    video model is a parameter: a function from the request to the operation
    it starts, and a script of the replies to the polls that follow. */
module VideoService {
  import opened Base
  import opened Text

  /* ---------- the snippet tables ---------- */

  datatype Animation = BeforeHeadTurn | AfterHeadTurn | AfterSmile | AfterSurprise

  /** `animationSnippets[key]`: `None` is `undefined` (an unknown key). */
  function ParseAnimation(key: Option<string>): (a: Option<Animation>)
    ensures a == Some(BeforeHeadTurn) <==> key == Some("animate_before_head_turn")
    ensures a == Some(AfterHeadTurn) <==> key == Some("animate_after_head_turn")
    ensures a == Some(AfterSmile) <==> key == Some("animate_after_smile")
    ensures a == Some(AfterSurprise) <==> key == Some("animate_after_surprise")
  {
    match key
    case None => None
    case Some(k) =>
      if k == "animate_before_head_turn" then Some(BeforeHeadTurn)
      else if k == "animate_after_head_turn" then Some(AfterHeadTurn)
      else if k == "animate_after_smile" then Some(AfterSmile)
      else if k == "animate_after_surprise" then Some(AfterSurprise)
      else None
  }

  datatype Emphasis = NoEmphasis | HandGesture | SubtleZoom

  /** `emphasisSnippets[key]`; `None` is `undefined`. */
  function ParseEmphasis(key: Option<string>): (e: Option<Emphasis>)
    ensures e == Some(NoEmphasis) <==> key == Some("none")
    ensures e == Some(HandGesture) <==> key == Some("hand_gesture")
    ensures e == Some(SubtleZoom) <==> key == Some("subtle_zoom")
  {
    if key == Some("none") then Some(NoEmphasis)
    else if key == Some("hand_gesture") then Some(HandGesture)
    else if key == Some("subtle_zoom") then Some(SubtleZoom)
    else None
  }

  datatype Pace = Slow | Normal | Fast

  /** `speedSnippets[key]`; `None` is `undefined`. */
  function ParsePace(key: Option<string>): (p: Option<Pace>)
    ensures p == Some(Slow) <==> key == Some("slow")
    ensures p == Some(Normal) <==> key == Some("normal")
    ensures p == Some(Fast) <==> key == Some("fast")
  {
    if key == Some("slow") then Some(Slow)
    else if key == Some("normal") then Some(Normal)
    else if key == Some("fast") then Some(Fast)
    else None
  }

  /** The fixed texts the prompt is assembled from. */
  datatype Snippet =
    | BaseInstruction
    | LeftPanel(animation: Animation)
    | RightPanel(animation: Animation)
    | EmphasisSnippet(emphasis: Emphasis)
    | PaceSnippet(pace: Pace)

  function SnippetText(k: Snippet): string {
    match k
    case BaseInstruction => "**CRITICAL INSTRUCTION: All generated motion and content MUST be strictly confined within the original boundaries of the before-and-after photo panels. Do NOT alter, fill, or generate anything in the background or areas outside of the two subject panels. The framing of the original photos must be perfectly preserved throughout the video.**\n\nGenerate a clinical demonstration video using the provided composite photo. The two panels must retain their exact original photos, backgrounds, and treatment results. Do not apply transitions, cuts, filters, or effects. Only add subtle, consistent human-like motion as described below, contained entirely within each panel:"
    case LeftPanel(BeforeHeadTurn) => "• Left Panel (Before): The subject's head rotates slowly side-to-side *within its frame*. The movement must feel intentional, as if presenting untreated skin for close inspection. Maintain all natural texture and imperfections exactly as in the source photo."
    case LeftPanel(AfterHeadTurn) => "• Left Panel (Before): The subject remains steady and forward-facing *within its frame*. Add only very subtle micro-movements (natural blinking) to keep the photo alive."
    case LeftPanel(_) => "• Left Panel (Before): The subject remains steady and forward-facing *within its frame* with a neutral expression. Add only very subtle micro-movements (natural blinking)."
    case RightPanel(BeforeHeadTurn) => "• Right Panel (After): The subject remains steady and forward-facing *within its frame*. Add only very subtle micro-movements (natural blinking, faint micro-expressions) to keep the photo alive. The overall impression must be calm stability."
    case RightPanel(AfterHeadTurn) => "• Right Panel (After): The subject's head rotates slowly side-to-side *within its frame*. The movement must feel confident, as if showing off the excellent results from all angles."
    case RightPanel(AfterSmile) => "• Right Panel (After): The subject's expression transitions from neutral into a gentle, confident smile. The smile should form naturally over 2-3 seconds and then hold. The head itself remains completely still."
    case RightPanel(AfterSurprise) => "• Right Panel (After): The subject's expression transitions into one of pleased surprise. This includes a slight widening of the eyes and a soft, happy mouth, as if seeing their wonderful results for the first time. The head remains completely still."
    case EmphasisSnippet(NoEmphasis) => ""
    case EmphasisSnippet(HandGesture) => " For 2-3 seconds, a natural, professional-looking hand (neutral nail color, no jewelry) will enter the RIGHT PANEL ONLY to gently highlight the primary treatment area in the 'after' results. The hand must NEVER appear in the left 'before' panel. The hand gesture must be subtle and clinical, drawing attention to the successful results without obscuring them, then smoothly exit the frame."
    case EmphasisSnippet(SubtleZoom) => " Apply a very slow, subtle zoom-in effect (e.g., from 100% to 105% scale) focused on the subject in this panel. The zoom should be smooth and last for the majority of the video's duration to create a sense of focus."
    case PaceSnippet(Slow) => " All described movements should be performed slowly and deliberately."
    case PaceSnippet(Normal) => " All described movements should be performed at a natural, calm pace."
    case PaceSnippet(Fast) => " All described movements should be performed at a slightly quicker, efficient pace."
  }

  /** `${undefined}` */
  const UndefinedText := "undefined"

  /** The emphasis text appended to the right-panel instruction; an unknown
      key reads `undefined`, which concatenation renders as "undefined". */
  function EmphasisText(key: Option<string>): string {
    match ParseEmphasis(key)
    case Some(e) => SnippetText(EmphasisSnippet(e))
    case None => UndefinedText
  }

  /** The pacing text, with the same reading of unknown keys. */
  function PaceText(key: Option<string>): string {
    match ParsePace(key)
    case Some(p) => SnippetText(PaceSnippet(p))
    case None => UndefinedText
  }

  const PacingLabel := "• Overall Pacing:"

  /** The `options` argument; an absent field is `None`. */
  datatype VideoOptions = VideoOptions(primaryAnimation: Option<string>, emphasisEffect: Option<string>, motionSpeed: Option<string>)

  /** The template literal `${base}\n\n${left}\n\n${right}\n\n• Overall Pacing:${pace}`. */
  function Assemble(base: string, left: string, right: string, pace: string): string {
    base + "\n\n" + left + "\n\n" + right + "\n\n" + PacingLabel + pace
  }

  /** The template is the four blocks joined by blank lines, in this order. */
  lemma AssembleIsJoin(base: string, left: string, right: string, pace: string)
    ensures Assemble(base, left, right, pace) == Join([base, left, right, PacingLabel + pace], "\n\n")
  {
    var b := [base, left, right, PacingLabel + pace];
    assert Join(b[3..], "\n\n") == b[3];
    assert Join(b[2..], "\n\n") == b[2] + "\n\n" + b[3];
    assert Join(b[1..], "\n\n") == b[1] + "\n\n" + (b[2] + "\n\n" + b[3]);
  }

  /** `videoPrompt`: the emphasis text is appended to the right-panel
      instruction and to nothing else. */
  function VideoPrompt(a: Animation, o: VideoOptions): string {
    Assemble(SnippetText(BaseInstruction), SnippetText(LeftPanel(a)),
             SnippetText(RightPanel(a)) + EmphasisText(o.emphasisEffect), PaceText(o.motionSpeed))
  }

  /** The prompt is the base, left-panel, right-panel-with-emphasis and pacing
      blocks joined by blank lines. */
  lemma VideoPromptBlocks(a: Animation, o: VideoOptions)
    ensures VideoPrompt(a, o) == Join([SnippetText(BaseInstruction), SnippetText(LeftPanel(a)),
                                       SnippetText(RightPanel(a)) + EmphasisText(o.emphasisEffect),
                                       PacingLabel + PaceText(o.motionSpeed)], "\n\n")
  {
    AssembleIsJoin(SnippetText(BaseInstruction), SnippetText(LeftPanel(a)),
                   SnippetText(RightPanel(a)) + EmphasisText(o.emphasisEffect), PaceText(o.motionSpeed));
  }

  /** Emphasis "none" adds the empty string to the right-panel instruction. */
  lemma NoEmphasisAddsNothing(o: VideoOptions)
    requires o.emphasisEffect == Some("none")
    ensures EmphasisText(o.emphasisEffect) == ""
  {
  }

  /* ---------- thrown values ---------- */

  /** A thrown value: an `Error` with its name and message, or any other value
      by its string conversion. */
  datatype Thrown = ErrorValue(name: string, message: string) | OtherValue(text: string)

  /** `e.toString()`; for an `Error` this is `Error.prototype.toString`. */
  function ThrownText(e: Thrown): string {
    match e
    case ErrorValue(name, message) =>
      if message == "" then name else if name == "" then message else name + ": " + message
    case OtherValue(text) => text
  }

  /** The rate-limit test of the polling loop. */
  predicate IsRateLimit(text: string) {
    Includes(text, "429") || Includes(Upper(text), "RESOURCE_EXHAUSTED")
  }

  /* ---------- the polling loop ---------- */

  const InitialPollDelay := 10000
  const MaxPollDelay := 60000

  function Min(a: int, b: int): int {
    if a <= b then a else b
  }

  /** A long-running generation as the polling loop sees it. */
  datatype Operation = Operation(done: bool, uri: Option<string>)

  /** One call of `getVideosOperation`: the refreshed operation, or what it threw. */
  type PollReply = Result<Operation, Thrown>

  /** The backoff step: a successful poll resets `pollDelay`, a rate-limited
      one doubles it up to the cap; any other error ends the loop. */
  function NextDelay(delay: int, reply: PollReply): (d: int)
    ensures InitialPollDelay <= delay <= MaxPollDelay ==> InitialPollDelay <= d <= MaxPollDelay
    ensures reply.Success? ==> d == InitialPollDelay
    ensures reply.Failure? && 0 <= delay <= MaxPollDelay ==> delay <= d
    ensures reply.Failure? && IsRateLimit(ThrownText(reply.error)) && 2 * delay <= MaxPollDelay ==> d == 2 * delay
  {
    if reply.Success? then InitialPollDelay
    else if IsRateLimit(ThrownText(reply.error)) then Min(delay * 2, MaxPollDelay)
    else delay
  }

  datatype PollOutcome = Finished(op: Operation) | Aborted(error: Thrown) | StillPolling

  /** Whether the loop stops at this reply (an error that is not a rate limit). */
  predicate Aborts(reply: PollReply) {
    reply.Failure? && !IsRateLimit(ThrownText(reply.error))
  }

  /** The loop `while (!operation.done)` run against the scripted replies,
      from operation `op` and delay `delay`; `StillPolling` means the script
      ended while the operation was still running. */
  function PollSpec(op: Operation, delay: int, replies: seq<PollReply>): PollOutcome
    decreases |replies|
  {
    if op.done then Finished(op)
    else if |replies| == 0 then StillPolling
    else if Aborts(replies[0]) then Aborted(replies[0].error)
    else PollSpec(if replies[0].Success? then replies[0].value else op, NextDelay(delay, replies[0]), replies[1..])
  }

  /** The `setTimeout` waits of that loop, in order. */
  function WaitsSpec(op: Operation, delay: int, replies: seq<PollReply>): (w: seq<int>)
    ensures InitialPollDelay <= delay <= MaxPollDelay ==>
      forall i :: 0 <= i < |w| ==> InitialPollDelay <= w[i] <= MaxPollDelay
    ensures |w| > 0 ==> w[0] == delay
    ensures |w| <= |replies|
    decreases |replies|
  {
    if op.done || |replies| == 0 then []
    else if Aborts(replies[0]) then [delay]
    else [delay] + WaitsSpec(if replies[0].Success? then replies[0].value else op, NextDelay(delay, replies[0]), replies[1..])
  }

  lemma AppendAssoc(a: seq<int>, b: seq<int>, c: seq<int>)
    ensures (a + b) + c == a + (b + c)
  {
  }

  /** The polling loop, as the source writes it: a successful poll takes the
      refreshed operation, an error that is not a rate limit ends the loop,
      and the delay follows `NextDelay`. `rest` holds the replies not yet
      consumed. */
  method PollOperation(start: Operation, replies: seq<PollReply>) returns (outcome: PollOutcome, waits: seq<int>)
    ensures outcome == PollSpec(start, InitialPollDelay, replies)
    ensures waits == WaitsSpec(start, InitialPollDelay, replies)
    ensures forall i :: 0 <= i < |waits| ==> InitialPollDelay <= waits[i] <= MaxPollDelay
  {
    var op := start;
    var delay := InitialPollDelay;
    var rest := replies;
    waits := [];
    while !op.done && |rest| > 0
      invariant InitialPollDelay <= delay <= MaxPollDelay
      invariant PollSpec(op, delay, rest) == PollSpec(start, InitialPollDelay, replies)
      invariant waits + WaitsSpec(op, delay, rest) == WaitsSpec(start, InitialPollDelay, replies)
      invariant forall j :: 0 <= j < |waits| ==> InitialPollDelay <= waits[j] <= MaxPollDelay
      decreases |rest|
    {
      var reply := rest[0];
      if Aborts(reply) {
        return Aborted(reply.error), waits + [delay];
      }
      var next := if reply.Success? then reply.value else op;
      AppendAssoc(waits, [delay], WaitsSpec(next, NextDelay(delay, reply), rest[1..]));
      waits := waits + [delay];
      op := next;
      delay := NextDelay(delay, reply);
      rest := rest[1..];
    }
    if op.done {
      outcome := Finished(op);
    } else {
      outcome := StillPolling;
    }
  }

  /* ---------- backoff under a run of rate-limit errors ---------- */

  function Pow2(k: nat): (r: nat)
    ensures r >= 1
  {
    if k == 0 then 1 else 2 * Pow2(k - 1)
  }

  predicate RateLimited(reply: PollReply) {
    reply.Failure? && IsRateLimit(ThrownText(reply.error))
  }

  lemma DoubleCapped(d: int, k: nat)
    requires d > 0
    ensures Min(Min(d * 2, MaxPollDelay) * Pow2(k), MaxPollDelay) == Min(d * Pow2(k + 1), MaxPollDelay)
  {
    assert Pow2(k + 1) == 2 * Pow2(k);
    assert d * Pow2(k + 1) == (d * 2) * Pow2(k);
    if d * 2 >= MaxPollDelay {
      assert MaxPollDelay * Pow2(k) >= MaxPollDelay;
      assert (d * 2) * Pow2(k) >= d * 2;
    }
  }

  /** While every poll is rate limited, the i-th wait is the first delay
      doubled i times, capped at 60 s: 10 s, 20 s, 40 s, 60 s, 60 s, ... */
  lemma {:induction false} RateLimitStreakWaits(op: Operation, delay: int, replies: seq<PollReply>, i: nat)
    requires !op.done && 0 < delay <= MaxPollDelay
    requires forall j :: 0 <= j < |replies| ==> RateLimited(replies[j])
    requires i < |replies|
    ensures |WaitsSpec(op, delay, replies)| == |replies|
    ensures WaitsSpec(op, delay, replies)[i] == Min(delay * Pow2(i), MaxPollDelay)
    ensures PollSpec(op, delay, replies) == StillPolling
    decreases |replies|
  {
    var next := NextDelay(delay, replies[0]);
    assert next == Min(delay * 2, MaxPollDelay);
    var w := WaitsSpec(op, delay, replies);
    if |replies| == 1 {
      assert w == [delay];
    } else {
      assert w == [delay] + WaitsSpec(op, next, replies[1..]);
      var k: nat := if i == 0 then 0 else i - 1;
      RateLimitStreakWaits(op, next, replies[1..], k);
      if i > 0 {
        DoubleCapped(delay, k);
      }
    }
    if |replies| > 1 {
      assert PollSpec(op, delay, replies) == PollSpec(op, next, replies[1..]);
    }
  }

  /* ---------- generateClinicalVideo ---------- */

  const VideoModel := "veo-2.0-generate-001"

  /** The `generateVideos` request. Its prompt is kept as the animation and
      options it is assembled from; `Prompt` gives the text. The image is the
      `imageBase64` argument, `undefined` (`None`) when the caller had none. */
  datatype VideoRequest = VideoRequest(model: string, animation: Animation, options: VideoOptions,
                                       imageBytes: Option<string>, mimeType: string, numberOfVideos: int)

  /** The prompt text the request carries. */
  function Prompt(q: VideoRequest): string {
    VideoPrompt(q.animation, q.options)
  }

  /** How a call ends: with the download link, with the message of the
      `Error` it throws, or still polling when the scripted replies ran out. */
  datatype VideoOutcome = VideoLink(url: string) | VideoFailed(message: string) | StillGenerating

  /** The request the video model received, if any, the outcome, and the
      `onProgress` stages reported, in order. */
  datatype VideoCall = VideoCall(sent: Option<VideoRequest>, outcome: VideoOutcome, progress: seq<int>)

  const FailurePrefix := "Failed to generate video: "
  const UnknownFailure := "An unknown error occurred during video generation."
  const NoLinkMessage := "Video generation failed or returned no downloadable link."

  /** The message V8 gives the `TypeError` of reading a property of `undefined`. */
  const MissingSnippetMessage := "Cannot read properties of undefined (reading 'before')"

  /** The outer `catch`: an `Error` keeps its message behind a fixed prefix,
      any other thrown value becomes one fixed message. */
  function FailureMessage(e: Thrown): string {
    match e
    case ErrorValue(_, message) => FailurePrefix + message
    case OtherValue(_) => UnknownFailure
  }

  /** `operation.response?.generatedVideos?.[0]?.video?.uri` is truthy. */
  predicate HasLink(op: Operation) {
    op.uri.Some? && op.uri.value != ""
  }

  /** The request `generateVideos` receives; none when the animation key is
      unknown, since reading its snippet throws first. */
  function VideoRequestFor(image: Option<string>, o: VideoOptions): (q: Option<VideoRequest>)
    ensures q.Some? <==> ParseAnimation(o.primaryAnimation).Some?
    ensures q.Some? ==>
      && q.value.model == VideoModel && q.value.mimeType == "image/png" && q.value.numberOfVideos == 1
      && q.value.imageBytes == image
      && q.value.animation == ParseAnimation(o.primaryAnimation).value && q.value.options == o
  {
    match ParseAnimation(o.primaryAnimation)
    case None => None
    case Some(a) => Some(VideoRequest(VideoModel, a, o, image, "image/png", 1))
  }

  /** The video model `veo`, started with the request for `image` and `o`,
      gives an operation that the polls in `replies` bring to an end with a
      link. */
  predicate DeliversLink(image: Option<string>, o: VideoOptions,
                         veo: VideoRequest -> Result<Operation, Thrown>, replies: seq<PollReply>) {
    match VideoRequestFor(image, o)
    case None => false
    case Some(q) =>
      && veo(q).Success?
      && PollSpec(veo(q).value, InitialPollDelay, replies).Finished?
      && HasLink(PollSpec(veo(q).value, InitialPollDelay, replies).op)
  }

  /** `generateClinicalVideo(imageBase64, options, onProgress)`, with `veo`
      what `generateVideos` returns or throws for each request and `replies`
      the successive results of `getVideosOperation`. */
  function GenerateClinicalVideo(image: Option<string>, o: VideoOptions, apiKey: string,
                                 veo: VideoRequest -> Result<Operation, Thrown>, replies: seq<PollReply>): (c: VideoCall)
    ensures c.sent == VideoRequestFor(image, o)
    ensures c.progress <= [2, 3, 4]
    ensures ParseAnimation(o.primaryAnimation).None? ==>
      c == VideoCall(None, VideoFailed(FailurePrefix + MissingSnippetMessage), [])
    ensures c.outcome.VideoLink? <==> DeliversLink(image, o, veo, replies)
    ensures c.outcome.VideoLink? ==>
      && c.progress == [2, 3, 4]
      && c.outcome.url == PollSpec(veo(c.sent.value).value, InitialPollDelay, replies).op.uri.value + "&key=" + apiKey
    ensures c.outcome.VideoFailed? ==> IsPrefix(FailurePrefix, c.outcome.message) || c.outcome.message == UnknownFailure
  {
    match VideoRequestFor(image, o)
    case None => VideoCall(None, VideoFailed(FailureMessage(ErrorValue("TypeError", MissingSnippetMessage))), [])
    case Some(q) =>
      match veo(q)
      case Failure(e) => VideoCall(Some(q), VideoFailed(FailureMessage(e)), [2])
      case Success(op) =>
        match PollSpec(op, InitialPollDelay, replies)
        case Aborted(e) => VideoCall(Some(q), VideoFailed(FailureMessage(e)), [2, 3])
        case StillPolling => VideoCall(Some(q), StillGenerating, [2, 3])
        case Finished(last) =>
          if HasLink(last) then VideoCall(Some(q), VideoLink(last.uri.value + "&key=" + apiKey), [2, 3, 4])
          else VideoCall(Some(q), VideoFailed(FailureMessage(ErrorValue("Error", NoLinkMessage))), [2, 3, 4])
  }
}
