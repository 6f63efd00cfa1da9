/** The collaborators the Face2 service calls but does not implement: the
    base64 decoder behind `Buffer.from`, SHA-256, the `sharp` image library,
    and the Gemini image model. They are gathered in `Env`, a record of total
    functions, so that every operation of the model takes them as a parameter. */
module Platform {
  import opened Base

  newtype byte = x: int | 0 <= x < 256

  type Bytes = seq<byte>

  /** A hex SHA-256 digest. */
  type Hash = string

  datatype Color = Color(r: int, g: int, b: int)

  const White := Color(255, 255, 255)
  const DividerGrey := Color(200, 200, 200)
  const PlaceholderGrey := Color(240, 240, 240)

  /** `sharp` resize fit modes used by the service. */
  datatype Fit = Cover | Inside | Contain

  /** A `sharp` pipeline, described symbolically. Pixels are never computed;
      a picture only records which sources and which operations produced it. */
  datatype Picture =
    | Decoded(bytes: Bytes)
    | Resized(src: Picture, boxWidth: int, boxHeight: Option<int>, fit: Fit)
    | Modulated(src: Picture, brightness: real, saturation: real, hue: int)
    | Sharpened(src: Picture)
    | Blank(width: int, height: int, background: Color)
    | Overlaid(base: Picture, layers: seq<Layer>)

  /** One entry of a `composite([...])` call. */
  datatype Layer = Layer(pic: Picture, left: int, top: int)

  datatype Dims = Dims(width: int, height: int)

  /** One request to the image model: the long system instruction (by its
      sections), the per-job text part (by its lines, which are sent joined
      with line breaks), and the inline images in order. */
  datatype AiRequest = AiRequest(systemSections: seq<string>, userLines: seq<string>, images: seq<Bytes>)

  /** A content part of a candidate; `inlineData` holds base64 image data when present. */
  datatype Part = Part(inlineData: Option<string>)

  datatype Candidate = Candidate(parts: seq<Part>)

  /** What `generateContent` produced: candidates, or a thrown error. */
  datatype AiReply = Answered(candidates: seq<Candidate>) | CallFailed(message: string)

  datatype Env = Env(
    decodeBase64: string -> Bytes,     // Buffer.from(s, 'base64')
    sha256: Bytes -> Hash,             // crypto.createHash('sha256')
    decodes: Bytes -> bool,            // sharp(buffer) reads the buffer
    decodeError: Bytes -> string,      // message of the error sharp throws otherwise
    encodePng: Picture -> Bytes,       // sharp(...).png().toBuffer()
    measure: Picture -> Dims,          // sharp(...).metadata()
    generate: AiRequest -> AiReply)    // ai.models.generateContent
}
