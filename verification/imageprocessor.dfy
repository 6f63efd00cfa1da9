/** `imageProcessor.js`: parameter normalisation (`clampInt` over
    `Number.parseInt`), the per-mode failure policy of `anonymizePhotos` and
    `beautifyPhotos`, the beautify-only local fallback, and the two 800x800
    composite layouts. */
module ImageProcessor {
  import opened Base
  import opened Text
  import opened Platform
  import opened Geometry
  import opened Jobs
  import GeminiService

  /* ---------- Number.parseInt(v, 10) and clampInt ---------- */

  /** `Number.parseInt(s, 10)`: leading white space skipped, one optional
      sign, then the longest run of decimal digits; `None` is `NaN`. */
  function ParseInt(s: string): Option<int>
    decreases |s|
  {
    if |s| > 0 && IsJsSpace(s[0]) then ParseInt(s[1..])
    else
      var u := if |s| > 0 && (s[0] == '-' || s[0] == '+') then s[1..] else s;
      var ds := LeadingDigits(u);
      if ds == "" then None
      else if |s| > 0 && s[0] == '-' then Some(0 - DigitsValue(ds))
      else Some(DigitsValue(ds))
  }

  /** A sign or a digit is never white space. */
  lemma SignOrDigitNotSpace(c: char)
    requires IsDigit(c) || c == '-'
    ensures !IsJsSpace(c)
  {
  }

  /** A run of digits followed by a non-digit reads as the run's value. */
  lemma ParseIntOfDigits(d: string, rest: string)
    requires d != "" && AllDigits(d)
    requires rest == "" || !IsDigit(rest[0])
    ensures ParseInt(d + rest) == Some(DigitsValue(d))
  {
    var s := d + rest;
    assert s[0] == d[0];
    SignOrDigitNotSpace(s[0]);
    LeadingDigitsOfDigits(d, rest);
  }

  /** Behind a leading minus sign, parseInt negates the digit run that follows. */
  lemma ParseIntAfterMinus(s: string, ds: string)
    requires |s| > 0 && s[0] == '-'
    requires ds == LeadingDigits(s[1..]) && ds != ""
    ensures ParseInt(s) == Some(0 - DigitsValue(ds))
  {
    SignOrDigitNotSpace(s[0]);
  }

  /** The same run behind a minus sign reads as the negated value. */
  lemma ParseIntOfNegatedDigits(d: string, rest: string)
    requires d != "" && AllDigits(d)
    requires rest == "" || !IsDigit(rest[0])
    ensures ParseInt(("-" + d) + rest) == Some(0 - DigitsValue(d))
  {
    var s := ("-" + d) + rest;
    assert s[0] == '-' && s[1..] == d + rest by {
      assert ("-" + d)[1..] == d;
    }
    LeadingDigitsOfDigits(d, rest);
    ParseIntAfterMinus(s, d);
  }

  /** parseInt reads back the decimal text of any integer, and stops at the
      first character after it that is not a digit (`"12px"` reads 12). */
  lemma ParseIntOfDecimal(n: int, rest: string)
    requires rest == "" || !IsDigit(rest[0])
    ensures ParseInt(IntToString(n) + rest) == Some(n)
  {
    var m: nat := if n < 0 then -n else n;
    NatToStringRoundTrip(m);
    if n < 0 {
      assert IntToString(n) == "-" + NatToString(m);
      ParseIntOfNegatedDigits(NatToString(m), rest);
    } else {
      assert IntToString(n) == NatToString(m);
      ParseIntOfDigits(NatToString(m), rest);
    }
  }

  /** `clampInt(n, min, max)`: parse, `min` when unparseable, else clamp. */
  function ClampInt(v: JsValue, lo: int, hi: int): (r: int)
    requires lo <= hi
    ensures lo <= r <= hi
    ensures ParseInt(JsString(v)).None? ==> r == lo
    ensures ParseInt(JsString(v)).Some? ==>
      var n := ParseInt(JsString(v)).value;
      && (lo <= n <= hi ==> r == n)
      && (n < lo ==> r == lo)
      && (n > hi ==> r == hi)
  {
    match ParseInt(JsString(v))
    case None => lo
    case Some(n) => if n < lo then lo else if n > hi then hi else n
  }

  /** On a number, `clampInt` is the plain clamp. */
  lemma ClampIntOfNumber(n: JsNumber, lo: int, hi: int)
    requires lo <= hi
    ensures ClampInt(Number(n), lo, hi) == if n < lo then lo else if n > hi then hi else n
  {
    ParseIntOfDecimal(n, "");
    assert IntToString(n) + "" == IntToString(n);
  }

  /* ---------- normalisation ---------- */

  /** A numeric knob that passes through untouched (the other mode's knob,
      which the server leaves `undefined`). */
  function KnobOf(v: JsValue): Option<int> {
    if v.Number? then Some(v.n) else None
  }

  /** `normalizeAnonymizeParams(meta)`, as the parameters `processJob` reads. */
  function NormalizeAnonymize(meta: JobParams): (s: GeminiService.Settings)
    ensures s.mode == Anonymize && s.jobId == meta.jobId
    ensures s.notes == meta.notes && s.advanced == meta.advanced
    ensures s.variation.Some? && 15 <= s.variation.value <= 100
    ensures Nullish(meta.variation) ==> s.variation == Some(55)
    ensures Nullish(meta.alignmentVariance) ==> s.alignment == meta.alignmentVariance
    ensures !Nullish(meta.alignmentVariance) ==> s.alignment.Number? && 5 <= s.alignment.n <= 20
    ensures s.intensity == KnobOf(meta.beautifyIntensity)
  {
    assert ParseInt(JsString(Number(55))) == Some(55) by {
      ParseIntOfDecimal(55, "");
      assert IntToString(55) + "" == IntToString(55);
    }
    GeminiService.Settings(
      meta.jobId, Anonymize, meta.notes,
      Some(ClampInt(Coalesce(meta.variation, Number(55)), 15, 100)),
      KnobOf(meta.beautifyIntensity),
      if Nullish(meta.alignmentVariance) then meta.alignmentVariance
      else Number(ClampInt(meta.alignmentVariance, 5, 20)),
      meta.advanced)
  }

  /** `normalizeBeautifyParams(meta)`, as the parameters `processJob` reads. */
  function NormalizeBeautify(meta: JobParams): (s: GeminiService.Settings)
    ensures s.mode == Beautify && s.jobId == meta.jobId
    ensures s.notes == meta.notes && s.advanced == meta.advanced
    ensures s.intensity.Some? && 1 <= s.intensity.value <= 10
    ensures Nullish(meta.beautifyIntensity) ==> s.intensity == Some(5)
    ensures s.alignment == meta.alignmentVariance
    ensures s.variation == KnobOf(meta.variation)
  {
    assert ParseInt(JsString(Number(5))) == Some(5) by {
      ParseIntOfDecimal(5, "");
      assert IntToString(5) + "" == IntToString(5);
    }
    GeminiService.Settings(
      meta.jobId, Beautify, meta.notes,
      KnobOf(meta.variation),
      Some(ClampInt(Coalesce(meta.beautifyIntensity, Number(5)), 1, 10)),
      meta.alignmentVariance,
      meta.advanced)
  }

  /** Once normalised, the Gemini service's own clamps change nothing. */
  lemma NormalizedKnobsSurviveService(meta: JobParams)
    ensures GeminiService.Variation(NormalizeAnonymize(meta)) == NormalizeAnonymize(meta).variation.value
    ensures GeminiService.Intensity(NormalizeBeautify(meta)) == NormalizeBeautify(meta).intensity.value
  {
  }

  /* ---------- composites (800 x 800) ---------- */

  function InputCanvas(): (l: Layout)
    ensures TilesCanvas(l)
    ensures l.size == 800 && l.panelWidth == 398 && l.dividerX == 398
    ensures l.dividerWidth == 4 && l.rightX == 402
  {
    SplitCanvas(800, 4)
  }

  function PolishCanvas(): (l: Layout)
    ensures TilesCanvas(l)
    ensures l.size == 800 && l.panelWidth == 399 && l.dividerX == 399
    ensures l.dividerWidth == 2 && l.rightX == 401
  {
    SplitCanvas(800, 2)
  }

  /** `createInputComposite`: both photos cropped to fill their panel, a
      white divider between them; this is what the model receives. */
  function InputComposite(before: Bytes, after: Bytes): (p: Picture)
    ensures p.Overlaid? && p.base == Blank(800, 800, White) && |p.layers| == 3
    ensures p.layers[0] == Layer(Resized(Decoded(before), 398, Some(800), Cover), 0, 0)
    ensures p.layers[1] == Layer(Blank(4, 800, White), 398, 0)
    ensures p.layers[2] == Layer(Resized(Decoded(after), 398, Some(800), Cover), 402, 0)
  {
    var l := InputCanvas();
    Overlaid(Blank(l.size, l.size, White),
             [ Layer(Resized(Decoded(before), l.panelWidth, Some(l.size), Cover), 0, 0),
               Layer(Blank(l.dividerWidth, l.size, White), l.dividerX, 0),
               Layer(Resized(Decoded(after), l.panelWidth, Some(l.size), Cover), l.rightX, 0) ])
  }

  /** `await createInputComposite(before, after)`: `sharp` reads the before
      photo, then the after photo; the first it cannot read makes it throw. */
  function CreateInputComposite(env: Env, before: Bytes, after: Bytes): (r: Result<Bytes, string>)
    ensures r.Success? <==> env.decodes(before) && env.decodes(after)
    ensures r.Success? ==> r.value == env.encodePng(InputComposite(before, after))
    ensures !env.decodes(before) ==> r == Failure(env.decodeError(before))
    ensures env.decodes(before) && !env.decodes(after) ==> r == Failure(env.decodeError(after))
  {
    if !env.decodes(before) then Failure(env.decodeError(before))
    else if !env.decodes(after) then Failure(env.decodeError(after))
    else Success(env.encodePng(InputComposite(before, after)))
  }

  /** `createSideBySideComposite` of the image processor: both pictures fitted
      inside their panel and placed at the panel's top-left corner. */
  function PolishComposite(left: Picture, right: Picture): (p: Picture)
    ensures p.Overlaid? && p.base == Blank(800, 800, White) && |p.layers| == 3
    ensures p.layers[0] == Layer(Resized(left, 399, Some(800), Inside), 0, 0)
    ensures p.layers[1] == Layer(Blank(2, 800, DividerGrey), 399, 0)
    ensures p.layers[2] == Layer(Resized(right, 399, Some(800), Inside), 401, 0)
  {
    var l := PolishCanvas();
    Overlaid(Blank(l.size, l.size, White),
             [ Layer(Resized(left, l.panelWidth, Some(l.size), Inside), 0, 0),
               Layer(Blank(l.dividerWidth, l.size, DividerGrey), l.dividerX, 0),
               Layer(Resized(right, l.panelWidth, Some(l.size), Inside), l.rightX, 0) ])
  }

  /* ---------- beautify fallback ---------- */

  /** The polish step runs when the clamped intensity, divided by ten, exceeds 0.3. */
  predicate PolishEnabled(s: GeminiService.Settings) {
    GeminiService.Intensity(s) as real / 10.0 > 0.3
  }

  /** The gate opens exactly from intensity 4 upwards. */
  lemma PolishGateIff(s: GeminiService.Settings)
    ensures PolishEnabled(s) <==> GeminiService.Intensity(s) >= 4
  {
  }

  function PolishPrepare(buf: Bytes, s: GeminiService.Settings): Picture {
    var fitted := Resized(Decoded(buf), 400, None, Contain);
    var i := GeminiService.Intensity(s) as real / 10.0;
    if PolishEnabled(s) then Sharpened(Modulated(fitted, 1.0 + i * 0.1, 1.0 + i * 0.2, 0)) else fitted
  }

  /** `fallbackBeautification(before, after, meta)`: both photos polished and
      placed side by side; throws when `sharp` cannot read one of them. */
  function FallbackBeautification(env: Env, before: Bytes, after: Bytes, s: GeminiService.Settings): (r: Result<JobOutput, string>)
    ensures r.Success? <==> env.decodes(before) && env.decodes(after)
    ensures r.Failure? ==> r.error == if !env.decodes(before) then env.decodeError(before) else env.decodeError(after)
    ensures r.Success? ==>
      && r.value.log == PolishFallbackLog(s.jobId, GeminiService.Intensity(s), Trim(s.notes) != "")
      && LogStatus(r.value.log) == "completed_fallback" && LogMode(r.value.log) == Beautify
      && r.value.composite == env.encodePng(PolishComposite(PolishPrepare(before, s), PolishPrepare(after, s)))
  {
    if !env.decodes(before) then Failure(env.decodeError(before))
    else if !env.decodes(after) then Failure(env.decodeError(after))
    else
      Success(JobOutput(env.encodePng(PolishComposite(PolishPrepare(before, s), PolishPrepare(after, s))),
                        PolishFallbackLog(s.jobId, GeminiService.Intensity(s), Trim(s.notes) != "")))
  }

  /* ---------- the two entry points ---------- */

  const AnonymizeNeedsImage := "Anonymize requires at least one ORIGINAL image buffer (before or after)."
  const AnonymizeFailed := "Anonymization failed. No unsafe fallback executed."
  const BeautifyNeedsBoth := "Beautify requires BOTH before and after ORIGINAL image buffers."

  /** The single buffer the anonymize path sends to the model: the input
      composite of both photos, or the one photo given. */
  function AnonymizeInput(env: Env, before: Option<Bytes>, after: Option<Bytes>): Result<Bytes, string>
    requires before.Some? || after.Some?
  {
    if before.Some? && after.Some? then CreateInputComposite(env, before.value, after.value)
    else if before.Some? then Success(before.value)
    else Success(after.value)
  }

  /** `anonymizePhotos(before, after, meta)`: the input composite is built
      before the `try`, so its error escapes as it is; every error of the job
      itself is replaced by one fixed message. */
  function AnonymizePhotos(env: Env, before: Option<Bytes>, after: Option<Bytes>, meta: JobParams): (r: Result<JobOutput, string>)
    ensures before.None? && after.None? ==> r == Failure(AnonymizeNeedsImage)
    ensures before.Some? || after.Some? ==>
      var input := AnonymizeInput(env, before, after);
      && (input.Failure? ==> r == Failure(input.error))
      && (input.Success? ==>
            var job := GeminiService.ProcessJob(env, Some(input.value), None, NormalizeAnonymize(meta));
            && (job.Success? ==> r == job)
            && (job.Failure? ==> r == Failure(AnonymizeFailed)))
  {
    if before.None? && after.None? then Failure(AnonymizeNeedsImage)
    else
      match AnonymizeInput(env, before, after)
      case Failure(e) => Failure(e)
      case Success(b) =>
        var job := GeminiService.ProcessJob(env, Some(b), None, NormalizeAnonymize(meta));
        if job.Success? then job else Failure(AnonymizeFailed)
  }

  /** `beautifyPhotos(before, after, meta)`: the input composite is built
      before the `try`; any error of the job falls back to the local polish. */
  function BeautifyPhotos(env: Env, before: Option<Bytes>, after: Option<Bytes>, meta: JobParams): (r: Result<JobOutput, string>)
    ensures before.None? || after.None? ==> r == Failure(BeautifyNeedsBoth)
    ensures before.Some? && after.Some? ==>
      var s := NormalizeBeautify(meta);
      var input := CreateInputComposite(env, before.value, after.value);
      && (input.Failure? ==> r == Failure(input.error))
      && (input.Success? ==>
            var job := GeminiService.ProcessJob(env, Some(input.value), None, s);
            && (job.Success? ==> r == job)
            && (job.Failure? ==> r == FallbackBeautification(env, before.value, after.value, s)))
  {
    if before.None? || after.None? then Failure(BeautifyNeedsBoth)
    else
      var s := NormalizeBeautify(meta);
      match CreateInputComposite(env, before.value, after.value)
      case Failure(e) => Failure(e)
      case Success(b) =>
        var job := GeminiService.ProcessJob(env, Some(b), None, s);
        if job.Success? then job else FallbackBeautification(env, before.value, after.value, s)
  }

  /** With both photos, beautify yields an output exactly when `sharp` can
      read both; otherwise it fails with `sharp`'s error for the first photo it
      cannot read, and the local polish is never reached with such a photo. */
  lemma BeautifyFailsOnlyOnUnreadable(env: Env, before: Bytes, after: Bytes, meta: JobParams)
    ensures BeautifyPhotos(env, Some(before), Some(after), meta).Success? <==> env.decodes(before) && env.decodes(after)
    ensures BeautifyPhotos(env, Some(before), Some(after), meta).Failure? ==>
      BeautifyPhotos(env, Some(before), Some(after), meta).error ==
        if !env.decodes(before) then env.decodeError(before) else env.decodeError(after)
  {
    var s := NormalizeBeautify(meta);
    var input := CreateInputComposite(env, before, after);
    if input.Success? {
      var job := GeminiService.ProcessJob(env, Some(input.value), None, s);
      if job.Failure? {
        assert BeautifyPhotos(env, Some(before), Some(after), meta) == FallbackBeautification(env, before, after, s);
      }
    }
  }

  /** Anonymize fails exactly when there is no photo, when `sharp` cannot read
      one of two photos, when the service's input guard rejects the buffer it
      receives (under 200 bytes), or when the model gives no image and `sharp`
      cannot read that buffer; it never returns the image processor's own
      fallback. */
  lemma AnonymizeFailureCases(env: Env, before: Option<Bytes>, after: Option<Bytes>, meta: JobParams)
    ensures AnonymizePhotos(env, before, after, meta).Failure? <==>
      || (before.None? && after.None?)
      || (before.Some? && after.Some? && !(env.decodes(before.value) && env.decodes(after.value)))
      || (var b := AnonymizeInput(env, before, after).value;
          || |b| < GeminiService.MinInputBytes
          || (&& GeminiService.ExtractImage(env.generate(GeminiService.ModelRequest(Some(b), None, NormalizeAnonymize(meta)))).None?
              && !env.decodes(b)))
    ensures AnonymizePhotos(env, before, after, meta).Success? ==>
      !AnonymizePhotos(env, before, after, meta).value.log.PolishFallbackLog?
  {
    if before.Some? || after.Some? {
      var input := AnonymizeInput(env, before, after);
      if input.Success? {
        var b := input.value;
        var s := NormalizeAnonymize(meta);
        assert GeminiService.InputGuard(Some(b), None).Some? <==> |b| < GeminiService.MinInputBytes;
        GeminiService.ProcessJobFailsIff(env, Some(b), None, s);
        GeminiService.SuccessLoggedAsAiOrBasic(env, Some(b), None, s);
      }
    }
  }

  /** Despite its "no unsafe fallback" message, anonymize does return a
      non-AI output: when the model gives no image for a buffer `sharp` can
      read, the service's own basic fallback (a resized copy and a hue-shifted
      copy) comes back as success; for a buffer it cannot read, the fixed
      failure message. */
  lemma AnonymizeReturnsServiceFallback(env: Env, before: Option<Bytes>, after: Option<Bytes>, meta: JobParams)
    requires before.Some? || after.Some?
    requires AnonymizeInput(env, before, after).Success?
    requires |AnonymizeInput(env, before, after).value| >= GeminiService.MinInputBytes
    requires var b := AnonymizeInput(env, before, after).value;
      GeminiService.ExtractImage(env.generate(GeminiService.ModelRequest(Some(b), None, NormalizeAnonymize(meta)))).None?
    ensures var b := AnonymizeInput(env, before, after).value;
      var s := NormalizeAnonymize(meta);
      env.decodes(b) ==>
        AnonymizePhotos(env, before, after, meta) ==
          Success(JobOutput(env.encodePng(GeminiService.OutputComposite(env,
                              GeminiService.FallbackPrepare(b, Anonymize, s.intensity), GeminiService.HueShiftedCopy(b))),
                            BasicFallbackLog(meta.jobId, Anonymize, s.intensity, meta.notes)))
    ensures !env.decodes(AnonymizeInput(env, before, after).value) ==>
      AnonymizePhotos(env, before, after, meta) == Failure(AnonymizeFailed)
  {
    var b := AnonymizeInput(env, before, after).value;
    var s := NormalizeAnonymize(meta);
    GeminiService.SingleAnonymizeFallback(env, b, s);
  }
}
