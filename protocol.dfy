/**
 * The command protocol. A command arrives as a frame of message parts: a one-byte tag part and one
 * payload part. Query and acknowledged commands come on the request socket and get one reply each;
 * the high-frequency commands (draw a line, pan, zoom) come on the subscribe socket and get none.
 *
 * The program panics on every malformed frame; the model returns a distinguished Fault instead.
 * Payload bytes are decoded by a serialization library that is not part of this model: a part carries
 * its raw bytes and, in `fields`, the typed reading that library produces of them.
 */
module Protocol {
  import opened Common
  import opened Geometry

  datatype Command =
    | Hello | DrawLine | Pan | Zoom | ScreenToWorld | GetLayers
    | DeleteLayer | ShowLayer | HideLayer | SetLayerPos | ScreenSize

  /** The command's `#[repr(u8)]` discriminant, the byte a client sends as the tag. */
  function Tag(c: Command): byte {
    match c
    case Hello => 0
    case DrawLine => 1
    case Pan => 2
    case Zoom => 3
    case ScreenToWorld => 4
    case GetLayers => 5
    case DeleteLayer => 6
    case ShowLayer => 7
    case HideLayer => 8
    case SetLayerPos => 9
    case ScreenSize => 10
  }

  /** `Command::from_u8`: bytes 0 to 10 name the eleven commands; any other byte is refused. */
  function FromU8(b: byte): (r: Option<Command>)
    ensures r.Some? <==> b <= 10
    ensures r.Some? ==> Tag(r.value) == b
  {
    if b == 0 then Some(Hello)
    else if b == 1 then Some(DrawLine)
    else if b == 2 then Some(Pan)
    else if b == 3 then Some(Zoom)
    else if b == 4 then Some(ScreenToWorld)
    else if b == 5 then Some(GetLayers)
    else if b == 6 then Some(DeleteLayer)
    else if b == 7 then Some(ShowLayer)
    else if b == 8 then Some(HideLayer)
    else if b == 9 then Some(SetLayerPos)
    else if b == 10 then Some(ScreenSize)
    else None
  }

  /** Decoding a command's own tag gives the command back, so no two commands share a tag. */
  lemma TagRoundTrip(c: Command)
    ensures FromU8(Tag(c)) == Some(c)
  {
  }

  lemma TagInjective(c1: Command, c2: Command)
    ensures Tag(c1) == Tag(c2) ==> c1 == c2
  {
    TagRoundTrip(c1);
    TagRoundTrip(c2);
  }

  /** The fire-and-forget commands, served only by the subscribe socket. */
  predicate IsUpdate(c: Command) { c == DrawLine || c == Pan || c == Zoom }

  /** The typed reading of a payload, as the serialization library decodes it. */
  datatype Fields =
    | Unreadable
    | NameFields(name: string)
    | PointFields(x: real, y: real)
    | ScaleFields(scale: real)
    | NamedPointFields(name: string, x: real, y: real)
    | LineFields(name: string, seg: Segment, thickness: real, color: Color)

  datatype Part = Part(bytes: seq<byte>, fields: Fields)

  datatype Frame = Frame(parts: seq<Part>)

  datatype Fault =
    | MissingTag     // no part at all (`req[0]` out of bounds)
    | BadTagLength   // the first part is not exactly one byte
    | BadPartCount   // not exactly two parts
    | UnknownTag     // `from_u8` panics
    | WrongChannel   // "use sub socket instead!", "only for no reply messages!"
    | BadPayload     // a failed payload decode, or a non-empty payload for Hello

  /**
   * The checks every frame passes before its command is looked at, in the program's order: the tag
   * part's length, then the part count, then the tag byte.
   */
  function ParseFrame(f: Frame): (r: Result<(Command, Part), Fault>)
    ensures r.Success? <==> |f.parts| == 2 && |f.parts[0].bytes| == 1 && f.parts[0].bytes[0] <= 10
    ensures r.Success? ==> Tag(r.value.0) == f.parts[0].bytes[0] && r.value.1 == f.parts[1]
    ensures r == Failure(MissingTag) <==> |f.parts| == 0
    ensures r == Failure(BadTagLength) <==> |f.parts| >= 1 && |f.parts[0].bytes| != 1
    ensures r == Failure(BadPartCount) <==> |f.parts| >= 1 && |f.parts[0].bytes| == 1 && |f.parts| != 2
    ensures r.Failure? ==> r.error in {MissingTag, BadTagLength, BadPartCount, UnknownTag}
  {
    if |f.parts| == 0 then Failure(MissingTag)
    else if |f.parts[0].bytes| != 1 then Failure(BadTagLength)
    else if |f.parts| != 2 then Failure(BadPartCount)
    else match FromU8(f.parts[0].bytes[0])
      case None => Failure(UnknownTag)
      case Some(c) => Success((c, f.parts[1]))
  }

  /** A request-socket command with its decoded arguments. */
  datatype Query =
    | HelloReq
    | ScreenToWorldReq(u: real, v: real)
    | GetLayersReq
    | DeleteLayerReq(name: string)
    | ShowLayerReq(name: string)
    | HideLayerReq(name: string)
    | SetLayerPosReq(name: string, x: real, y: real)
    | ScreenSizeReq

  /** A subscribe-socket command with its decoded arguments. */
  datatype Update =
    | DrawLineReq(name: string, seg: Segment, thickness: real, color: Color)
    | PanReq(x: real, y: real)
    | ZoomReq(scale: real)

  function QueryCommand(q: Query): Command {
    match q
    case HelloReq => Hello
    case ScreenToWorldReq(_, _) => ScreenToWorld
    case GetLayersReq => GetLayers
    case DeleteLayerReq(_) => DeleteLayer
    case ShowLayerReq(_) => ShowLayer
    case HideLayerReq(_) => HideLayer
    case SetLayerPosReq(_, _, _) => SetLayerPos
    case ScreenSizeReq => ScreenSize
  }

  function UpdateCommand(u: Update): Command {
    match u
    case DrawLineReq(_, _, _, _) => DrawLine
    case PanReq(_, _) => Pan
    case ZoomReq(_) => Zoom
  }

  /** The payload fields a query carries (Hello, GetLayers and ScreenSize carry none). */
  function QueryFields(q: Query): Fields {
    match q
    case ScreenToWorldReq(u, v) => PointFields(u, v)
    case DeleteLayerReq(n) => NameFields(n)
    case ShowLayerReq(n) => NameFields(n)
    case HideLayerReq(n) => NameFields(n)
    case SetLayerPosReq(n, x, y) => NamedPointFields(n, x, y)
    case _ => Unreadable
  }

  function UpdateFields(u: Update): Fields {
    match u
    case DrawLineReq(n, s, t, c) => LineFields(n, s, t, c)
    case PanReq(x, y) => PointFields(x, y)
    case ZoomReq(k) => ScaleFields(k)
  }

  /** The argument decoding of one `process_req` arm. */
  function QueryOf(c: Command, p: Part): Result<Query, Fault>
    requires !IsUpdate(c)
  {
    match c
    case Hello => if |p.bytes| == 0 then Success(HelloReq) else Failure(BadPayload)
    case GetLayers => Success(GetLayersReq)
    case ScreenSize => Success(ScreenSizeReq)
    case ScreenToWorld =>
      (match p.fields case PointFields(x, y) => Success(ScreenToWorldReq(x, y)) case _ => Failure(BadPayload))
    case DeleteLayer =>
      (match p.fields case NameFields(n) => Success(DeleteLayerReq(n)) case _ => Failure(BadPayload))
    case ShowLayer =>
      (match p.fields case NameFields(n) => Success(ShowLayerReq(n)) case _ => Failure(BadPayload))
    case HideLayer =>
      (match p.fields case NameFields(n) => Success(HideLayerReq(n)) case _ => Failure(BadPayload))
    case SetLayerPos =>
      (match p.fields case NamedPointFields(n, x, y) => Success(SetLayerPosReq(n, x, y)) case _ => Failure(BadPayload))
  }

  /** The argument decoding of one `process_sub` arm. */
  function UpdateOf(c: Command, p: Part): Result<Update, Fault>
    requires IsUpdate(c)
  {
    match c
    case DrawLine =>
      (match p.fields case LineFields(n, s, t, col) => Success(DrawLineReq(n, s, t, col)) case _ => Failure(BadPayload))
    case Pan =>
      (match p.fields case PointFields(x, y) => Success(PanReq(x, y)) case _ => Failure(BadPayload))
    case Zoom =>
      (match p.fields case ScaleFields(k) => Success(ZoomReq(k)) case _ => Failure(BadPayload))
  }

  /**
   * What `process_req` makes of a frame before acting on it: the frame checks, then a refusal of the
   * fire-and-forget commands, then the arm's argument decoding.
   */
  function DecodeReq(f: Frame): (r: Result<Query, Fault>)
    ensures ParseFrame(f).Failure? ==> r == Failure(ParseFrame(f).error)
    ensures ParseFrame(f).Success? && IsUpdate(ParseFrame(f).value.0) ==> r == Failure(WrongChannel)
    ensures r.Success? ==> ParseFrame(f).Success? && QueryCommand(r.value) == ParseFrame(f).value.0
    ensures r.Success? ==> !IsUpdate(QueryCommand(r.value))
    ensures r.Success? && r.value.HelloReq? ==> |f.parts[1].bytes| == 0
    ensures r.Success? && QueryFields(r.value) != Unreadable ==> f.parts[1].fields == QueryFields(r.value)
  {
    match ParseFrame(f)
    case Failure(e) => Failure(e)
    case Success((c, p)) => if IsUpdate(c) then Failure(WrongChannel) else QueryOf(c, p)
  }

  /**
   * What `process_sub` makes of a frame: the same frame checks, then a refusal of every command that
   * is not fire-and-forget, then the arm's argument decoding.
   */
  function DecodeSub(f: Frame): (r: Result<Update, Fault>)
    ensures ParseFrame(f).Failure? ==> r == Failure(ParseFrame(f).error)
    ensures ParseFrame(f).Success? && !IsUpdate(ParseFrame(f).value.0) ==> r == Failure(WrongChannel)
    ensures r.Success? ==> ParseFrame(f).Success? && UpdateCommand(r.value) == ParseFrame(f).value.0
    ensures r.Success? ==> IsUpdate(UpdateCommand(r.value))
    ensures r.Success? ==> f.parts[1].fields == UpdateFields(r.value)
  {
    match ParseFrame(f)
    case Failure(e) => Failure(e)
    case Success((c, p)) => if IsUpdate(c) then UpdateOf(c, p) else Failure(WrongChannel)
  }

  /** No frame is served by both sockets. */
  lemma ChannelsDisjoint(f: Frame)
    ensures !(DecodeReq(f).Success? && DecodeSub(f).Success?)
  {
  }

  /** The frame a client sends for a query: the tag, and a payload of the given bytes and fields. */
  function EncodeQuery(q: Query, raw: seq<byte>): Frame {
    Frame([Part([Tag(QueryCommand(q))], Unreadable), Part(raw, QueryFields(q))])
  }

  function EncodeUpdate(u: Update, raw: seq<byte>): Frame {
    Frame([Part([Tag(UpdateCommand(u))], Unreadable), Part(raw, UpdateFields(u))])
  }

  /**
   * Every query survives the trip through a well-formed frame on the request socket (Hello only with an
   * empty payload), and is refused on the subscribe socket.
   */
  lemma QueryRoundTrip(q: Query, raw: seq<byte>)
    requires q.HelloReq? ==> raw == []
    ensures DecodeReq(EncodeQuery(q, raw)) == Success(q)
    ensures DecodeSub(EncodeQuery(q, raw)) == Failure(WrongChannel)
  {
    TagRoundTrip(QueryCommand(q));
  }

  /** Every update survives the trip through a well-formed frame on the subscribe socket only. */
  lemma UpdateRoundTrip(u: Update, raw: seq<byte>)
    ensures DecodeSub(EncodeUpdate(u, raw)) == Success(u)
    ensures DecodeReq(EncodeUpdate(u, raw)) == Failure(WrongChannel)
  {
    TagRoundTrip(UpdateCommand(u));
  }

  /** Hello with any payload byte is refused. */
  lemma HelloNeedsEmptyPayload(raw: seq<byte>)
    requires raw != []
    ensures DecodeReq(EncodeQuery(HelloReq, raw)) == Failure(BadPayload)
  {
    TagRoundTrip(Hello);
  }

  /** A reply frame of the request socket. */
  datatype Reply =
    | Greeting(text: string)
    | WorldPos(pos: Option<Vec2>)
    | LayerNames(names: seq<string>)
    | Ack(ok: bool)
    | ScreenDims(w: real, h: real)
}
