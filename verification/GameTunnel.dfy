/** The binary envelope that carries one W3GS frame between agent and server. */
module GameTunnel {
  import opened Bytes
  import opened Frames

  const MAGIC: seq<u8> := [0x53, 0x54, 0x52, 0x4A]
  const TUNNEL_HEADER_BYTES := 16
  const PROTOCOL_VERSION: u16 := 5
  const MAX_TUNNELED_FRAME_BYTES := 1460
  const MAX_MESSAGE_BYTES := TUNNEL_HEADER_BYTES + MAX_TUNNELED_FRAME_BYTES

  datatype Direction = FromAgent | FromServer

  datatype Message = Message(sequence: u64, frame: seq<u8>)

  datatype TunnelError =
    | InvalidMessageLength(actual: nat)
    | InvalidMagic
    | InvalidKind(kind: u8)
    | InvalidFlags(flags: u8)
    | UnsupportedProtocolVersion(version: u16)
    | InvalidSequence
    | InvalidFrameBytes(actual: nat)

  function Kind(direction: Direction): (kind: u8)
  {
    match direction
    case FromAgent => 0x01
    case FromServer => 0x81
  }

  function NewMessage(sequence: u64, frame: seq<u8>): (r: Result<Message, TunnelError>)
    ensures r.Ok? <==> sequence != 0 && 1 <= |frame| <= MAX_TUNNELED_FRAME_BYTES
    ensures r.Ok? ==> r.value.sequence == sequence && r.value.frame == frame
  {
    if sequence == 0 then Err(InvalidSequence)
    else if frame == [] || |frame| > MAX_TUNNELED_FRAME_BYTES then Err(InvalidFrameBytes(|frame|))
    else Ok(Message(sequence, frame))
  }

  predicate ValidMessage(m: Message)
  {
    m.sequence != 0 && 1 <= |m.frame| <= MAX_TUNNELED_FRAME_BYTES
  }

  function Encode(direction: Direction, m: Message): (bytes: seq<u8>)
  {
    MAGIC + [Kind(direction), 0] + Le(2, PROTOCOL_VERSION) + Le(8, m.sequence) + m.frame
  }

  function Decode(direction: Direction, bytes: seq<u8>): (r: Result<Message, TunnelError>)
  {
    if |bytes| <= TUNNEL_HEADER_BYTES || |bytes| > MAX_MESSAGE_BYTES then Err(InvalidMessageLength(|bytes|))
    else if bytes[..4] != MAGIC then Err(InvalidMagic)
    else if bytes[4] != Kind(direction) then Err(InvalidKind(bytes[4]))
    else if bytes[5] != 0 then Err(InvalidFlags(bytes[5]))
    else
      var version := FromLe16(bytes[6..8]);
      if version != PROTOCOL_VERSION then Err(UnsupportedProtocolVersion(version))
      else NewMessage(FromLe64(bytes[8..16]), bytes[TUNNEL_HEADER_BYTES..])
  }

  /** Only messages the constructors admit survive the trip, and those unchanged. */
  lemma TunnelRoundTrip(direction: Direction, m: Message)
    ensures Decode(direction, Encode(direction, m)) == Ok(m) <==> ValidMessage(m)
  {
    var bytes := Encode(direction, m);
    assert bytes[..4] == MAGIC;
    assert bytes[6..8] == Le(2, PROTOCOL_VERSION);
    Le16RoundTrip(PROTOCOL_VERSION);
    assert bytes[8..16] == Le(8, m.sequence);
    Le64RoundTrip(m.sequence);
    assert bytes[TUNNEL_HEADER_BYTES..] == m.frame;
  }

  lemma TunnelCanonical(direction: Direction, bytes: seq<u8>)
    requires Decode(direction, bytes).Ok?
    ensures Encode(direction, Decode(direction, bytes).value) == bytes
  {
    var m := Decode(direction, bytes).value;
    LeCanonical(bytes[6..8]);
    LeCanonical(bytes[8..16]);
    assert bytes == bytes[..4] + [bytes[4], bytes[5]] + bytes[6..8] + bytes[8..16] + bytes[16..];
  }

  /** A message is never accepted by the side that sent it. */
  lemma DirectionsAreSeparate(direction: Direction, other: Direction, m: Message)
    requires direction != other && ValidMessage(m)
    ensures Decode(other, Encode(direction, m)) == Err(InvalidKind(Kind(direction)))
  {
    var bytes := Encode(direction, m);
    assert bytes[..4] == MAGIC;
  }

  datatype DeliveryError = Tunnel(tunnel: TunnelError) | Framing(framing: FrameError)

  /** What the other side obtains when frame bytes are wrapped, encoded, decoded and unwrapped. */
  function Deliver(direction: Direction, sequence: u64, frame: seq<u8>): (r: Result<(u64, Frame), DeliveryError>)
  {
    var wrapped := NewMessage(sequence, frame);
    if wrapped.Err? then Err(Tunnel(wrapped.error))
    else
      var received := Decode(direction, Encode(direction, wrapped.value));
      if received.Err? then Err(Tunnel(received.error))
      else
        var unwrapped := DecodeExact(received.value.frame, MAX_TUNNELED_FRAME_BYTES);
        if unwrapped.Err? then Err(Framing(unwrapped.error)) else Ok((received.value.sequence, unwrapped.value))
  }

  /** A frame of at most 1460 bytes under a positive sequence number arrives intact, and no other does. */
  lemma DeliveryIsFaithful(direction: Direction, sequence: u64, f: Frame)
    ensures Deliver(direction, sequence, ToBytes(f)) == Ok((sequence, f))
            <==> sequence != 0 && EncodedLength(f) <= MAX_TUNNELED_FRAME_BYTES
  {
    TunnelRoundTrip(direction, Message(sequence, ToBytes(f)));
    FrameRoundTrip(f, MAX_TUNNELED_FRAME_BYTES);
  }
}
