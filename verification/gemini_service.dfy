/** `geminiService.processJob` and its helpers: knob clamping, the input
    guards, the two-part prompt (static policy plus per-job directive), first
    image extraction from the model's reply, the local fallback, and the
    1200x1200 output composite. */
module GeminiService {
  import opened Base
  import opened Text
  import opened Platform
  import opened Geometry
  import opened Jobs

  /** The parameters `processJob` reads from `jobParams`. Numeric knobs are
      integers or absent: the image processor passes clamped integers for the
      mode's own knob and leaves the other mode's knob undefined. */
  datatype Settings = Settings(
    jobId: string,
    mode: Mode,
    notes: string,
    variation: Option<int>,
    intensity: Option<int>,
    alignment: JsValue,
    advanced: Advanced)

  /* ---------- knob clamping ---------- */

  /** `Math.max(lo, Math.min(hi, Number(v || dflt)))` */
  function ClampKnob(v: Option<int>, dflt: int, lo: int, hi: int): (r: int)
    requires lo <= dflt <= hi
    ensures lo <= r <= hi
    ensures (v.None? || v == Some(0)) ==> r == dflt
    ensures v.Some? && v.value != 0 && lo <= v.value <= hi ==> r == v.value
    ensures v.Some? && v.value != 0 && v.value < lo ==> r == lo
    ensures v.Some? && v.value != 0 && v.value > hi ==> r == hi
  {
    var n := if v.Some? && v.value != 0 then v.value else dflt;
    if n < lo then lo else if n > hi then hi else n
  }

  /** Anonymize strength: 15..100, default 55. */
  function Variation(s: Settings): int {
    ClampKnob(s.variation, 55, 15, 100)
  }

  /** Beautify polish strength: 1..10, default 5. */
  function Intensity(s: Settings): int {
    ClampKnob(s.intensity, 5, 1, 10)
  }

  /* ---------- the static policy document ---------- */

  const PolicySectionCount := 13

  /** Heading of section `i` of the system instruction. The prose under each
      heading is a fixed text and is not reproduced in this model. */
  function PolicySection(i: nat): string
    requires i < PolicySectionCount
  {
    match i
    case 0 => "ROLE"
    case 1 => "CONSENT GATE"
    case 2 => "STATELESSNESS / SOURCE OF TRUTH"
    case 3 => "INPUTS (from backend)"
    case 4 => "IF NOTES ARE MISSING"
    case 5 => "GLOBAL OUTPUT CONTRACT"
    case 6 => "MODE A \U{2014} BEAUTIFY (consent-approved)"
    case 7 => "MODE B \U{2014} ANONYMIZE (no consent; privacy-preserving)"
    case 8 => "CASES"
    case 9 => "VARIATION & INTENSITY"
    case 10 => "HARD CONSTRAINTS"
    case 11 => "FEEDBACK"
    case _ => "END OF JOB"
  }

  /** The section headings of the system instruction, in order. */
  function SystemPolicy(): (p: seq<string>)
    ensures |p| == PolicySectionCount
  {
    seq(PolicySectionCount, i requires 0 <= i < PolicySectionCount => PolicySection(i))
  }

  /** `buildSystemPrompt()`: takes no job parameter, so every job gets the same text. */
  function SystemPrompt(): string {
    Join(SystemPolicy(), "\n\n")
  }

  /** The policy carries the statelessness rules and the notes-missing rules
      the per-job directive refers to. */
  lemma SystemPromptCarriesRules()
    ensures Includes(SystemPrompt(), "STATELESSNESS / SOURCE OF TRUTH")
    ensures Includes(SystemPrompt(), "IF NOTES ARE MISSING")
  {
    JoinIncludesPart(SystemPolicy(), "\n\n", 2);
    JoinIncludesPart(SystemPolicy(), "\n\n", 4);
  }

  /* ---------- the per-job directive ---------- */

  /** The directive line for missing notes; written in two pieces so that its
      opening characters are evident to the verifier. */
  const NoNotesLine := "NO NOTES" + " PROVIDED \U{2192} Use system fallback rules for this mode."
  const NotesHeading := "NOTES (authoritative if present):"
  const AutoAlignment := "auto (5\U{2013}20%)"
  const SessionLine := "- Treat this as a fresh, stateless job using ONLY the ORIGINAL images included below."
  const LabelsLine := "Composite labels: \"\""
  const CaptionLine := "Caption: \"\""
  const ClosingLine := "Return a single side-by-side composite image only (no JSON in UI)."

  function AlignmentText(alignment: JsValue): string {
    if Truthy(alignment) then JsString(alignment) + "% (override)" else AutoAlignment
  }

  /** The lines of the mode header: the anonymize header shows variation and
      alignment, the beautify header shows the intensity, both the advanced
      toggles as JSON. */
  function HeaderLines(mode: Mode, variation: int, alignment: JsValue, intensity: int, advanced: Advanced): seq<string> {
    match mode
    case Anonymize =>
      [ "MODE: ANONYMIZE", "- variation: " + IntToString(variation),
        "- alignment_variance: " + AlignmentText(alignment), "- advanced: " + AdvancedJson(advanced) ]
    case Beautify =>
      [ "MODE: BEAUTIFY", "- intensity: " + IntToString(intensity), "- advanced: " + AdvancedJson(advanced) ]
  }

  function Header(mode: Mode, variation: int, alignment: JsValue, intensity: int, advanced: Advanced): string {
    Join(HeaderLines(mode, variation, alignment, intensity, advanced), "\n")
  }

  /** The notes block: the trimmed notes under their heading, or the fixed
      fallback line when nothing is left after trimming. */
  function NotesBlock(notes: string): string {
    if Trim(notes) != "" then NotesHeading + "\n" + Trim(notes) else NoNotesLine
  }

  lemma NotesLinesDiffer()
    ensures NoNotesLine[2] == ' ' && NotesHeading[2] == 'T'
  {
  }

  /** The fallback line is used exactly when the notes hold no visible text. */
  lemma NotesFallbackIff(notes: string)
    ensures NotesBlock(notes) == NoNotesLine <==> AllSpace(notes)
  {
    TrimSpec(notes);
    if !AllSpace(notes) {
      NotesLinesDiffer();
    }
  }

  /** The lines `buildUserPrompt` joins with "\n". */
  function DirectiveLines(mode: Mode, notes: string, variation: int, alignment: JsValue,
                          intensity: int, advanced: Advanced): seq<string>
  {
    [ "SESSION:", SessionLine, "",
      Header(mode, variation, alignment, intensity, advanced), "",
      NotesBlock(notes), "",
      LabelsLine, CaptionLine, "",
      ClosingLine ]
  }

  /** `buildUserPrompt(...)` */
  function BuildUserPrompt(mode: Mode, notes: string, variation: int, alignment: JsValue,
                           intensity: int, advanced: Advanced): string
  {
    Join(DirectiveLines(mode, notes, variation, alignment, intensity, advanced), "\n")
  }

  /** A header line appears in the directive. */
  lemma HeaderLineInDirective(mode: Mode, notes: string, variation: int, alignment: JsValue,
                              intensity: int, advanced: Advanced, i: int)
    requires 0 <= i < |HeaderLines(mode, variation, alignment, intensity, advanced)|
    ensures Includes(BuildUserPrompt(mode, notes, variation, alignment, intensity, advanced),
                     HeaderLines(mode, variation, alignment, intensity, advanced)[i])
  {
    var ls := DirectiveLines(mode, notes, variation, alignment, intensity, advanced);
    JoinIncludesPart(ls, "\n", 3);
    JoinIncludesPart(HeaderLines(mode, variation, alignment, intensity, advanced), "\n", i);
    IncludesTransitive(Join(ls, "\n"), ls[3], HeaderLines(mode, variation, alignment, intensity, advanced)[i]);
  }

  /** Empty or white-space notes put the fixed fallback line in the directive. */
  lemma DirectiveShowsFallbackLine(mode: Mode, notes: string, variation: int, alignment: JsValue,
                                   intensity: int, advanced: Advanced)
    requires AllSpace(notes)
    ensures Includes(BuildUserPrompt(mode, notes, variation, alignment, intensity, advanced), NoNotesLine)
  {
    var ls := DirectiveLines(mode, notes, variation, alignment, intensity, advanced);
    TrimSpec(notes);
    JoinIncludesPart(ls, "\n", 5);
  }

  /** Other notes appear in the directive trimmed, on the line right after
      the NOTES heading. */
  lemma DirectiveShowsNotes(mode: Mode, notes: string, variation: int, alignment: JsValue,
                            intensity: int, advanced: Advanced)
    requires !AllSpace(notes)
    ensures Includes(BuildUserPrompt(mode, notes, variation, alignment, intensity, advanced),
                     NotesHeading + "\n" + Trim(notes))
  {
    var ls := DirectiveLines(mode, notes, variation, alignment, intensity, advanced);
    NotesFallbackIff(notes);
    TrimSpec(notes);
    JoinIncludesPart(ls, "\n", 5);
    IncludesItself(ls[5]);
  }

  /** An anonymize directive shows the variation, and either the alignment
      override as a percentage or the automatic range. */
  lemma AnonymizeDirectiveShowsKnobs(notes: string, variation: int, alignment: JsValue,
                                     intensity: int, advanced: Advanced)
    ensures var d := BuildUserPrompt(Anonymize, notes, variation, alignment, intensity, advanced);
      && Includes(d, "MODE: ANONYMIZE")
      && Includes(d, "- variation: " + IntToString(variation))
      && (Truthy(alignment) ==> Includes(d, "- alignment_variance: " + JsString(alignment) + "% (override)"))
      && (!Truthy(alignment) ==> Includes(d, "- alignment_variance: " + AutoAlignment))
      && Includes(d, "- advanced: " + AdvancedJson(advanced))
  {
    var hs := HeaderLines(Anonymize, variation, alignment, intensity, advanced);
    HeaderLineInDirective(Anonymize, notes, variation, alignment, intensity, advanced, 0);
    HeaderLineInDirective(Anonymize, notes, variation, alignment, intensity, advanced, 1);
    HeaderLineInDirective(Anonymize, notes, variation, alignment, intensity, advanced, 2);
    HeaderLineInDirective(Anonymize, notes, variation, alignment, intensity, advanced, 3);
    if Truthy(alignment) {
      assert hs[2] == "- alignment_variance: " + JsString(alignment) + "% (override)";
    }
  }

  /** A beautify directive shows the intensity. */
  lemma BeautifyDirectiveShowsIntensity(notes: string, variation: int, alignment: JsValue,
                                        intensity: int, advanced: Advanced)
    ensures var d := BuildUserPrompt(Beautify, notes, variation, alignment, intensity, advanced);
      && Includes(d, "MODE: BEAUTIFY")
      && Includes(d, "- intensity: " + IntToString(intensity))
      && Includes(d, "- advanced: " + AdvancedJson(advanced))
  {
    HeaderLineInDirective(Beautify, notes, variation, alignment, intensity, advanced, 0);
    HeaderLineInDirective(Beautify, notes, variation, alignment, intensity, advanced, 1);
    HeaderLineInDirective(Beautify, notes, variation, alignment, intensity, advanced, 2);
  }

  /* ---------- input guards and reply extraction ---------- */

  const MinInputBytes := 200

  /** The checks `processJob` makes before it calls the model; an error
      message here is thrown to the caller, bypassing the local fallback. */
  function InputGuard(before: Option<Bytes>, after: Option<Bytes>): (e: Option<string>)
    ensures e.None? <==>
      && (before.Some? || after.Some?)
      && (before.Some? ==> |before.value| >= MinInputBytes)
      && (after.Some? ==> |after.value| >= MinInputBytes)
  {
    if before.None? && after.None? then Some("At least one image is required")
    else if (before.Some? && |before.value| < MinInputBytes) || (after.Some? && |after.value| < MinInputBytes) then
      Some("Input images too small for AI processing - using fallback")
    else None
  }

  predicate HasData(p: Part) {
    p.inlineData.Some? && p.inlineData.value != ""
  }

  /** The data of the first part carrying non-empty inline data. */
  function FirstInline(parts: seq<Part>): (r: Option<string>)
    ensures r.None? <==> forall k :: 0 <= k < |parts| ==> !HasData(parts[k])
    ensures r.Some? ==> exists k :: 0 <= k < |parts| && HasData(parts[k]) && parts[k].inlineData.value == r.value
                                    && forall j :: 0 <= j < k ==> !HasData(parts[j])
    decreases |parts|
  {
    if |parts| == 0 then None
    else if HasData(parts[0]) then Some(parts[0].inlineData.value)
    else
      var r := FirstInline(parts[1..]);
      assert forall k :: 1 <= k < |parts| ==> parts[k] == parts[1..][k - 1];
      if r.Some? then
        var k :| 0 <= k < |parts[1..]| && HasData(parts[1..][k]) && parts[1..][k].inlineData.value == r.value
                 && forall j :: 0 <= j < k ==> !HasData(parts[1..][j]);
        assert 0 <= k + 1 < |parts| && HasData(parts[k + 1]) && parts[k + 1].inlineData.value == r.value
               && forall j :: 0 <= j < k + 1 ==> !HasData(parts[j]);
        r
      else r
  }

  /** The image of a reply: only the first candidate is searched. */
  function ExtractImage(reply: AiReply): (r: Option<string>)
    ensures reply.CallFailed? ==> r.None?
    ensures reply.Answered? && |reply.candidates| == 0 ==> r.None?
    ensures reply.Answered? && |reply.candidates| > 0 ==> r == FirstInline(reply.candidates[0].parts)
  {
    match reply
    case CallFailed(_) => None
    case Answered(cs) => if |cs| == 0 then None else FirstInline(cs[0].parts)
  }

  /* ---------- output composite (1200 x 1200) ---------- */

  function OutputCanvas(): (l: Layout)
    ensures TilesCanvas(l)
    ensures l.size == 1200 && l.panelWidth == 598 && l.dividerX == 598
    ensures l.dividerWidth == 4 && l.rightX == 602
  {
    SplitCanvas(1200, 4)
  }

  /** One panel of the output: a white panel-sized canvas with the picture,
      resized to fit inside it, placed at the centring offsets. */
  function PanelFill(env: Env, pic: Picture): (r: Picture)
    ensures var resized := Resized(pic, 598, Some(1200), Inside);
      var d := env.measure(resized);
      && r.Overlaid? && r.base == Blank(598, 1200, White) && |r.layers| == 1
      && r.layers[0].pic == resized
      && CentredIn(r.layers[0].left, d.width, 598)
      && CentredIn(r.layers[0].top, d.height, 1200)
  {
    var l := OutputCanvas();
    var resized := Resized(pic, l.panelWidth, Some(l.size), Inside);
    var d := env.measure(resized);
    Overlaid(Blank(l.panelWidth, l.size, White),
             [Layer(resized, CentreOffset(l.panelWidth, d.width), CentreOffset(l.size, d.height))])
  }

  /** `createSideBySideComposite(left, right)` of the Gemini service. */
  function OutputComposite(env: Env, left: Picture, right: Picture): (r: Picture)
    ensures r.Overlaid? && r.base == Blank(1200, 1200, White) && |r.layers| == 3
    ensures r.layers[0] == Layer(PanelFill(env, left), 0, 0)
    ensures r.layers[1] == Layer(Blank(4, 1200, DividerGrey), 598, 0)
    ensures r.layers[2] == Layer(PanelFill(env, right), 602, 0)
  {
    var l := OutputCanvas();
    Overlaid(Blank(l.size, l.size, White),
             [ Layer(PanelFill(env, left), 0, 0),
               Layer(Blank(l.dividerWidth, l.size, DividerGrey), l.dividerX, 0),
               Layer(PanelFill(env, right), l.rightX, 0) ])
  }

  /* ---------- local fallback ---------- */

  /** `(jobParams.beautify_intensity || 5) / 10` */
  function FallbackStrength(rawIntensity: Option<int>): real {
    (if rawIntensity.Some? && rawIntensity.value != 0 then rawIntensity.value else 5) as real / 10.0
  }

  /** `processImage`: fit to width 600, polished only in beautify mode above 0.3. */
  function FallbackPrepare(buf: Bytes, mode: Mode, rawIntensity: Option<int>): Picture {
    var fitted := Resized(Decoded(buf), 600, None, Contain);
    var i := FallbackStrength(rawIntensity);
    if mode == Beautify && i > 0.3 then Sharpened(Modulated(fitted, 1.0 + i * 0.1, 1.0 + i * 0.2, 0))
    else fitted
  }

  /** The hue-shifted copy used as the second anonymize panel. */
  function HueShiftedCopy(buf: Bytes): Picture {
    Resized(Modulated(Decoded(buf), 1.1, 0.9, 10), 600, None, Contain)
  }

  datatype Panels = Panels(left: Picture, right: Picture)

  /** The two panels of the fallback composite, by which inputs are present. */
  function FallbackPanels(before: Option<Bytes>, after: Option<Bytes>, mode: Mode, rawIntensity: Option<int>): (p: Panels)
    requires before.Some? || after.Some?
    ensures before.Some? ==> p.left == FallbackPrepare(before.value, mode, rawIntensity)
    ensures before.Some? && after.Some? ==> p.right == FallbackPrepare(after.value, mode, rawIntensity)
    ensures before.Some? && after.None? && mode == Beautify ==> p.right == p.left
    ensures before.Some? && after.None? && mode == Anonymize ==>
              p.right == HueShiftedCopy(before.value) && p.right != p.left
    ensures before.None? ==> p.left == p.right == FallbackPrepare(after.value, mode, rawIntensity)
  {
    if before.Some? && after.Some? then
      Panels(FallbackPrepare(before.value, mode, rawIntensity), FallbackPrepare(after.value, mode, rawIntensity))
    else if before.Some? then
      var left := FallbackPrepare(before.value, mode, rawIntensity);
      Panels(left, if mode == Anonymize then HueShiftedCopy(before.value) else left)
    else
      var right := FallbackPrepare(after.value, mode, rawIntensity);
      Panels(right, right)
  }

  /** The blank canvas used when there is no input at all. */
  function Placeholder(): (p: Picture)
    ensures p.Blank? && p.width == 1200 && p.height == 600
  {
    Blank(1200, 600, PlaceholderGrey)
  }

  function PresentImages(before: Option<Bytes>, after: Option<Bytes>): seq<Bytes> {
    (if before.Some? then [before.value] else []) + (if after.Some? then [after.value] else [])
  }

  /** An optional input `sharp` can read, or no input at all. */
  predicate Readable(env: Env, b: Option<Bytes>) {
    b.Some? ==> env.decodes(b.value)
  }

  /** `fallbackProcessing(...)`: the placeholder when there is no input;
      otherwise every present input goes through `sharp`, and the first one it
      cannot read makes the fallback throw. */
  function FallbackProcessing(env: Env, before: Option<Bytes>, after: Option<Bytes>, s: Settings): (r: Result<JobOutput, string>)
    ensures before.None? && after.None? ==>
              r == Success(JobOutput(env.encodePng(Placeholder()), PlaceholderLog(s.jobId, s.mode, s.notes)))
    ensures before.Some? || after.Some? ==>
              && (r.Failure? <==> !Readable(env, before) || !Readable(env, after))
              && (r.Failure? ==> r.error == if !Readable(env, before) then env.decodeError(before.value)
                                            else env.decodeError(after.value))
              && (r.Success? ==>
                    && r.value.log == BasicFallbackLog(s.jobId, s.mode, s.intensity, s.notes)
                    && var p := FallbackPanels(before, after, s.mode, s.intensity);
                       r.value.composite == env.encodePng(OutputComposite(env, p.left, p.right)))
    ensures r.Success? ==> LogStatus(r.value.log) == "completed"
  {
    if before.None? && after.None? then
      Success(JobOutput(env.encodePng(Placeholder()), PlaceholderLog(s.jobId, s.mode, s.notes)))
    else if !Readable(env, before) then Failure(env.decodeError(before.value))
    else if !Readable(env, after) then Failure(env.decodeError(after.value))
    else
      var p := FallbackPanels(before, after, s.mode, s.intensity);
      Success(JobOutput(env.encodePng(OutputComposite(env, p.left, p.right)),
                        BasicFallbackLog(s.jobId, s.mode, s.intensity, s.notes)))
  }

  /* ---------- processJob ---------- */

  /** The request sent to the model: policy text, directive, and the images. */
  function ModelRequest(before: Option<Bytes>, after: Option<Bytes>, s: Settings): (q: AiRequest)
    ensures q.systemSections == SystemPolicy()
    ensures Join(q.userLines, "\n") == BuildUserPrompt(s.mode, s.notes, Variation(s), s.alignment, Intensity(s), s.advanced)
    ensures q.images == PresentImages(before, after)
  {
    AiRequest(SystemPolicy(),
              DirectiveLines(s.mode, s.notes, Variation(s), s.alignment, Intensity(s), s.advanced),
              PresentImages(before, after))
  }

  /** `processJob(beforeBuffer, afterBuffer, jobParams)`: throws from the input
      guards, and from the local fallback when `sharp` cannot read an input; a
      model failure or a reply without an image falls back. */
  function ProcessJob(env: Env, before: Option<Bytes>, after: Option<Bytes>, s: Settings): (r: Result<JobOutput, string>)
    ensures InputGuard(before, after).Some? ==> r == Failure(InputGuard(before, after).value)
    ensures InputGuard(before, after).None? ==>
      var image := ExtractImage(env.generate(ModelRequest(before, after, s)));
      && (image.Some? ==> r.Success? && r.value.composite == env.decodeBase64(image.value) && r.value.log.AiLog?)
      && (image.None? ==> r == FallbackProcessing(env, before, after, s))
    // The AI log records the clamped knobs, "auto" for a falsy alignment, and
    // whether the notes hold more than white space.
    ensures r.Success? && r.value.log.AiLog? ==>
      var l := r.value.log;
      && l.jobId == s.jobId && l.mode == s.mode
      && l.variation == Variation(s) && l.intensity == Intensity(s)
      && (Truthy(s.alignment) ==> l.alignment == s.alignment)
      && (!Truthy(s.alignment) ==> l.alignment == Str("auto"))
      && (l.notesPresent <==> Trim(s.notes) != "")
  {
    match InputGuard(before, after)
    case Some(e) => Failure(e)
    case None =>
      match ExtractImage(env.generate(ModelRequest(before, after, s)))
      case Some(data) =>
        Success(JobOutput(env.decodeBase64(data),
                          AiLog(s.jobId, s.mode, Variation(s), Intensity(s),
                                Or(s.alignment, Str("auto")), Trim(s.notes) != "")))
      case None => FallbackProcessing(env, before, after, s)
  }

  /** A job fails exactly when the input guards reject it, or when the model
      gives no image and `sharp` cannot read one of the inputs. */
  lemma ProcessJobFailsIff(env: Env, before: Option<Bytes>, after: Option<Bytes>, s: Settings)
    ensures ProcessJob(env, before, after, s).Failure? <==>
      || InputGuard(before, after).Some?
      || (&& ExtractImage(env.generate(ModelRequest(before, after, s))).None?
          && (!Readable(env, before) || !Readable(env, after)))
  {
  }

  /** A successful job is logged either as the model's answer or as the basic
      fallback, never as another fallback. */
  lemma SuccessLoggedAsAiOrBasic(env: Env, before: Option<Bytes>, after: Option<Bytes>, s: Settings)
    ensures var r := ProcessJob(env, before, after, s);
      r.Success? ==> r.value.log.AiLog? || r.value.log.BasicFallbackLog?
  {
  }

  /** A single anonymize input that the model answers without an image ends in
      the fallback composite of that input beside its hue-shifted copy when
      `sharp` can read it, and in `sharp`'s error when it cannot. */
  lemma SingleAnonymizeFallback(env: Env, b: Bytes, s: Settings)
    requires |b| >= MinInputBytes && s.mode == Anonymize
    requires ExtractImage(env.generate(ModelRequest(Some(b), None, s))).None?
    ensures env.decodes(b) ==>
      ProcessJob(env, Some(b), None, s) ==
        Success(JobOutput(env.encodePng(OutputComposite(env, FallbackPrepare(b, Anonymize, s.intensity), HueShiftedCopy(b))),
                          BasicFallbackLog(s.jobId, s.mode, s.intensity, s.notes)))
    ensures !env.decodes(b) ==> ProcessJob(env, Some(b), None, s) == Failure(env.decodeError(b))
  {
    var p := FallbackPanels(Some(b), None, Anonymize, s.intensity);
    assert p.right == HueShiftedCopy(b);
    assert ProcessJob(env, Some(b), None, s) == FallbackProcessing(env, Some(b), None, s);
  }

  /** Once the guards pass, a reply without an image always ends in the local
      fallback: the job succeeds, logged as the basic fallback, exactly when
      `sharp` can read every input, and otherwise fails with `sharp`'s error. */
  lemma ModelFailureFallsBack(env: Env, before: Option<Bytes>, after: Option<Bytes>, s: Settings)
    requires InputGuard(before, after).None?
    requires ExtractImage(env.generate(ModelRequest(before, after, s))).None?
    ensures ProcessJob(env, before, after, s).Success? <==> Readable(env, before) && Readable(env, after)
    ensures ProcessJob(env, before, after, s).Success? ==>
              AiService(ProcessJob(env, before, after, s).value.log) == "fallback_basic_enhancement"
    ensures ProcessJob(env, before, after, s).Failure? ==>
              ProcessJob(env, before, after, s).error ==
                (if !Readable(env, before) then env.decodeError(before.value) else env.decodeError(after.value))
  {
    var r := ProcessJob(env, before, after, s);
    assert r == FallbackProcessing(env, before, after, s);
    if r.Success? {
      assert r.value.log.BasicFallbackLog?;
    }
  }
}
