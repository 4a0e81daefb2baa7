/** W3GS framing: a signature byte, a packet id, a 16-bit total length and a payload. */
module Frames {
  import opened Bytes

  const SIGNATURE: u8 := 0xF7
  const HEADER_LENGTH := 4
  const MAX_WIRE_LENGTH := 0xFFFF

  datatype FrameFields = Frame(packetId: u8, payload: seq<u8>)

  /** The length field is 16 bits wide and counts the header. */
  type Frame = f: FrameFields | HEADER_LENGTH + |f.payload| <= MAX_WIRE_LENGTH witness Frame(0, [])

  datatype Header = Header(packetId: u8, frameLength: u16)

  datatype FrameError =
    | InvalidSignature(signature: u8)
    | InvalidFrameLength(actual: nat)
    | InvalidMaximumFrameLength(actual: nat)
    | FrameTooLarge(actual: nat, maximum: nat)
    | TruncatedHeader(actual: nat)
    | FrameLengthMismatch(declared: nat, actual: nat)
    | UnexpectedEof

  function EncodedLength(f: Frame): (n: u16)
    ensures n >= HEADER_LENGTH
  {
    HEADER_LENGTH + |f.payload|
  }

  function NewFrame(packetId: u8, payload: seq<u8>): (r: Result<Frame, FrameError>)
    ensures r.Ok? <==> |payload| <= MAX_WIRE_LENGTH - HEADER_LENGTH
    ensures r.Ok? ==> r.value.packetId == packetId && r.value.payload == payload
  {
    var frameLength := HEADER_LENGTH + |payload|;
    if frameLength > MAX_WIRE_LENGTH then Err(FrameTooLarge(frameLength, MAX_WIRE_LENGTH))
    else Ok(Frame(packetId, payload))
  }

  function DecodeHeader(bytes: seq<u8>): (r: Result<Header, FrameError>)
    requires |bytes| == HEADER_LENGTH
    ensures r.Ok? ==> r.value.frameLength >= HEADER_LENGTH
  {
    if bytes[0] != SIGNATURE then Err(InvalidSignature(bytes[0]))
    else
      var frameLength := FromLe16(bytes[2..4]);
      if frameLength < HEADER_LENGTH then Err(InvalidFrameLength(frameLength))
      else Ok(Header(bytes[1], frameLength))
  }

  predicate ValidMaximum(maximum: nat)
  {
    HEADER_LENGTH <= maximum <= MAX_WIRE_LENGTH
  }

  function ToBytes(f: Frame): (bytes: seq<u8>)
    ensures |bytes| == EncodedLength(f)
  {
    [SIGNATURE, f.packetId] + Le(2, EncodedLength(f)) + f.payload
  }

  function DecodeExact(bytes: seq<u8>, maximum: nat): (r: Result<Frame, FrameError>)
  {
    if !ValidMaximum(maximum) then Err(InvalidMaximumFrameLength(maximum))
    else if |bytes| < HEADER_LENGTH then Err(TruncatedHeader(|bytes|))
    else
      var header := DecodeHeader(bytes[..HEADER_LENGTH]);
      if header.Err? then Err(header.error)
      else if header.value.frameLength > maximum then Err(FrameTooLarge(header.value.frameLength, maximum))
      else if |bytes| != header.value.frameLength then
        Err(FrameLengthMismatch(header.value.frameLength, |bytes|))
      else Ok(Frame(header.value.packetId, bytes[HEADER_LENGTH..]))
  }

  lemma HeaderOfEncoding(f: Frame, rest: seq<u8>)
    ensures DecodeHeader((ToBytes(f) + rest)[..HEADER_LENGTH]) == Ok(Header(f.packetId, EncodedLength(f)))
  {
    var bytes := (ToBytes(f) + rest)[..HEADER_LENGTH];
    assert bytes[2..4] == Le(2, EncodedLength(f));
    Le16RoundTrip(EncodedLength(f));
  }

  /** Decoding inverts encoding exactly when the limit admits the frame. */
  lemma FrameRoundTrip(f: Frame, maximum: nat)
    ensures DecodeExact(ToBytes(f), maximum) == Ok(f)
            <==> ValidMaximum(maximum) && EncodedLength(f) <= maximum
  {
    HeaderOfEncoding(f, []);
    assert ToBytes(f) + [] == ToBytes(f);
    assert ToBytes(f)[HEADER_LENGTH..] == f.payload;
  }

  /** Every accepted byte string is the encoding of the frame it decodes to. */
  lemma FrameCanonical(bytes: seq<u8>, maximum: nat)
    requires DecodeExact(bytes, maximum).Ok?
    ensures ToBytes(DecodeExact(bytes, maximum).value) == bytes
    ensures EncodedLength(DecodeExact(bytes, maximum).value) <= maximum
  {
    var f := DecodeExact(bytes, maximum).value;
    var head := bytes[..HEADER_LENGTH];
    LeCanonical(head[2..4]);
    assert Le(2, EncodedLength(f)) == head[2..4] == bytes[2..4];
    assert bytes == [bytes[0], bytes[1]] + bytes[2..4] + bytes[HEADER_LENGTH..];
  }
}
