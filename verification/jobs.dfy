/** Domain records shared by the Face2 server, the image processor and the
    Gemini service: modes, the advanced toggles, the job parameters the
    server builds, and the job log each processing path writes. */
module Jobs {
  import opened Base
  import opened Text
  import opened Platform

  datatype Mode = Beautify | Anonymize

  function ModeName(m: Mode): string {
    match m
    case Beautify => "beautify"
    case Anonymize => "anonymize"
  }

  /** `['beautify', 'anonymize'].includes(mode)`, returning the matched mode. */
  function ParseMode(mode: Option<string>): (r: Option<Mode>)
    ensures r.Some? <==> mode == Some("beautify") || mode == Some("anonymize")
    ensures r.Some? ==> mode == Some(ModeName(r.value))
  {
    match mode
    case Some(s) =>
      if s == "beautify" then Some(Beautify)
      else if s == "anonymize" then Some(Anonymize)
      else None
    case None => None
  }

  /** `String(v)`, also the `${v}` interpolation. */
  function JsString(v: JsValue): string {
    match v
    case Undefined => "undefined"
    case Null => "null"
    case Bool(b) => if b then "true" else "false"
    case Number(n) => IntToString(n)
    case Str(s) => s
  }

  /** The `advanced` object: hair micro-variation, clothing type lock,
      clothing variation and eye colour; a missing key is `None`. */
  datatype Advanced = Advanced(
    hairMicroVariation: Option<bool>,
    clothingTypeLock: Option<bool>,
    clothingVariation: Option<bool>,
    eyeColor: Option<string>)

  /** `{}` */
  const NoAdvanced := Advanced(None, None, None, None)

  function JsonBool(b: bool): string {
    if b then "true" else "false"
  }

  function JsonEscape(s: string): string
    decreases |s|
  {
    if |s| == 0 then ""
    else (if s[0] == '"' || s[0] == '\\' then ['\\', s[0]] else [s[0]]) + JsonEscape(s[1..])
  }

  function JsonField<T>(key: string, v: Option<T>, show: T -> string): seq<string> {
    match v
    case Some(x) => ["\"" + key + "\":" + show(x)]
    case None => []
  }

  /** `JSON.stringify(advanced)`: present keys only, in insertion order. */
  function AdvancedJson(a: Advanced): string {
    "{" + Join(
      JsonField("hair_micro_variation", a.hairMicroVariation, JsonBool)
      + JsonField("clothing_type_lock", a.clothingTypeLock, JsonBool)
      + JsonField("clothing_variation", a.clothingVariation, JsonBool)
      + JsonField("eye_color", a.eyeColor, (s: string) => "\"" + JsonEscape(s) + "\""),
      ",") + "}"
  }

  /** The `jobParams` object the server builds for an accepted job. */
  datatype JobParams = JobParams(
    jobId: string,
    mode: Mode,
    beforeHash: Option<Hash>,
    afterHash: Option<Hash>,
    notes: string,
    variation: JsValue,
    beautifyIntensity: JsValue,
    alignmentVariance: JsValue,
    advanced: Advanced,
    consentVerified: bool)

  const GeminiModel := "gemini-2.5-flash-image-preview"

  /** The server-side job log, one variant per path that can produce an output. */
  datatype JobLog =
      /** The model returned an image. */
    | AiLog(jobId: string, mode: Mode, variation: int, intensity: int, alignment: JsValue, notesPresent: bool)
      /** No input image at all: a blank placeholder canvas. */
    | PlaceholderLog(jobId: string, mode: Mode, notes: string)
      /** The Gemini service's own local fallback. */
    | BasicFallbackLog(jobId: string, mode: Mode, rawIntensity: Option<int>, notes: string)
      /** The image processor's beautify fallback. */
    | PolishFallbackLog(jobId: string, intensity: int, notesPresent: bool)

  function AiService(log: JobLog): string {
    match log
    case AiLog(_, _, _, _, _, _) => GeminiModel
    case PlaceholderLog(_, _, _) => "fallback_placeholder"
    case BasicFallbackLog(_, _, _, _) => "fallback_basic_enhancement"
    case PolishFallbackLog(_, _, _) => "fallback_basic_enhancement"
  }

  function LogStatus(log: JobLog): string {
    if log.PolishFallbackLog? then "completed_fallback" else "completed"
  }

  function LogMode(log: JobLog): Mode {
    if log.PolishFallbackLog? then Beautify else log.mode
  }

  /** `{ compositeBuffer, jsonLog }` */
  datatype JobOutput = JobOutput(composite: Bytes, log: JobLog)
}
