/** What a player does in Warcraft, from the frame Warcraft writes to the call the server makes on the room. */
module GameInput {
  import opened Bytes
  import opened Frames
  import opened Actions
  import opened GameTunnel

  datatype Input = Act(sequence: u64, action: PlayerAction) | KeepAlive(sequence: u64, checksum: u32)

  datatype InputError =
    | TooLong(actual: nat)
    | BadTunnel(tunnel: TunnelError)
    | BadFrame(framing: FrameError)
    | BadAction(cause: ActionError)
    | Unsupported(packetId: u8)

  /** The server's handling of one binary message of the session of `player`. */
  function Receive(crc: Crc, player: u8, payload: seq<u8>): (r: Result<Input, InputError>)
  {
    if |payload| > MAX_MESSAGE_BYTES then Err(TooLong(|payload|))
    else
      var message := Decode(FromAgent, payload);
      if message.Err? then Err(BadTunnel(message.error))
      else
        var frame := DecodeExact(message.value.frame, MAX_TUNNELED_FRAME_BYTES);
        if frame.Err? then Err(BadFrame(frame.error))
        else Interpret(crc, player, message.value.sequence, frame.value)
  }

  function Interpret(crc: Crc, player: u8, sequence: u64, frame: Frame): (r: Result<Input, InputError>)
  {
    if frame.packetId == OUTGOING_ACTION then
      var data := DecodeOutgoingAction(crc, frame);
      if data.Err? then Err(BadAction(data.error))
      else
        var action := NewAction(player, data.value);
        if action.Err? then Err(BadAction(action.error)) else Ok(Act(sequence, action.value))
    else if frame.packetId == OUTGOING_KEEPALIVE then
      var checksum := DecodeKeepAlive(frame);
      if checksum.Err? then Err(BadAction(checksum.error)) else Ok(KeepAlive(sequence, checksum.value))
    else Err(Unsupported(frame.packetId))
  }

  /** The bytes an agent sends for a frame of its Warcraft. */
  function Send(sequence: u64, frame: Frame): (payload: seq<u8>)
  {
    Encode(FromAgent, Message(sequence, ToBytes(frame)))
  }

  lemma SentIsInterpreted(crc: Crc, player: u8, sequence: u64, frame: Frame)
    requires sequence != 0 && EncodedLength(frame) <= MAX_TUNNELED_FRAME_BYTES
    ensures Receive(crc, player, Send(sequence, frame)) == Interpret(crc, player, sequence, frame)
  {
    hide Interpret, Decode, DecodeExact;
    TunnelRoundTrip(FromAgent, Message(sequence, ToBytes(frame)));
    FrameRoundTrip(frame, MAX_TUNNELED_FRAME_BYTES);
  }

  /** Whatever a player does arrives as done, under the session's own player id. */
  lemma ActionArrives(crc: Crc, player: u8, sequence: u64, data: seq<u8>)
    requires sequence != 0 && |data| <= MAX_ACTION_DATA_BYTES
    ensures Receive(crc, player, Send(sequence, OutgoingActionFrame(crc, data))) ==
              if player != 0 then Ok(Act(sequence, PlayerAction(player, data))) else Err(BadAction(InvalidPlayerId))
  {
    hide Receive, Send, DecodeOutgoingAction;
    SentIsInterpreted(crc, player, sequence, OutgoingActionFrame(crc, data));
    OutgoingActionRoundTrip(crc, data);
  }

  /**
   Conversely, an accepted action is exactly what some Warcraft frame said, in the name of the session's
   player only.
   */
  lemma OnlyOwnActions(crc: Crc, player: u8, payload: seq<u8>)
    requires Receive(crc, player, payload).Ok? && Receive(crc, player, payload).value.Act?
    ensures var input := Receive(crc, player, payload).value;
            && input.action.player == player != 0
            && |input.action.data| <= MAX_ACTION_DATA_BYTES
            && payload == Send(input.sequence, OutgoingActionFrame(crc, input.action.data))
  {
    hide Decode, DecodeExact, DecodeOutgoingAction, Encode, ToBytes;
    var message := Decode(FromAgent, payload).value;
    TunnelCanonical(FromAgent, payload);
    FrameCanonical(message.frame, MAX_TUNNELED_FRAME_BYTES);
    OutgoingActionCanonical(crc, DecodeExact(message.frame, MAX_TUNNELED_FRAME_BYTES).value);
  }

  /** Agents forward only frames they could decode; those always fit the tunnel. */
  lemma ForwardedFits(crc: Crc, frame: Frame)
    requires DecodeOutgoingAction(crc, frame).Ok? || DecodeKeepAlive(frame).Ok?
    ensures EncodedLength(frame) <= MAX_TUNNELED_FRAME_BYTES
  {
  }

  lemma KeepAliveArrives(crc: Crc, player: u8, sequence: u64, frame: Frame)
    requires sequence != 0 && DecodeKeepAlive(frame).Ok?
    ensures Receive(crc, player, Send(sequence, frame)) == Ok(KeepAlive(sequence, DecodeKeepAlive(frame).value))
  {
    hide Receive, Send;
    SentIsInterpreted(crc, player, sequence, frame);
  }

  /** A keepalive as Warcraft writes it: one byte nobody interprets, and the checksum. */
  function KeepAliveFrame(unknown: u8, checksum: u32): (f: Frame)
  {
    Frame(0x27, [unknown] + Le(4, checksum))
  }

  lemma KeepAliveIsRead(f: Frame, checksum: u32)
    ensures DecodeKeepAlive(f) == Ok(checksum) <==> exists unknown: u8 :: f == KeepAliveFrame(unknown, checksum)
  {
    if DecodeKeepAlive(f) == Ok(checksum) {
      var last := f.payload[1..5];
      LeCanonical(last);
      assert FromLe(last) == checksum && last == Le(4, checksum);
      assert f.payload == [f.payload[0]] + last;
      assert f == KeepAliveFrame(f.payload[0], checksum);
    }
    if unknown: u8 :| f == KeepAliveFrame(unknown, checksum) {
      Le32RoundTrip(checksum);
      assert f.payload[1..5] == Le(4, checksum);
    }
  }

  lemma AcceptedKeepAlive(crc: Crc, player: u8, sequence: u64, checksum: u32, payload: seq<u8>)
    requires Receive(crc, player, payload) == Ok(KeepAlive(sequence, checksum))
    ensures sequence != 0
    ensures exists unknown: u8 :: payload == Send(sequence, KeepAliveFrame(unknown, checksum))
  {
    hide DecodeExact, DecodeOutgoingAction, DecodeKeepAlive, Encode, ToBytes;
    var message := Decode(FromAgent, payload).value;
    TunnelCanonical(FromAgent, payload);
    FrameCanonical(message.frame, MAX_TUNNELED_FRAME_BYTES);
    var frame := DecodeExact(message.frame, MAX_TUNNELED_FRAME_BYTES).value;
    KeepAliveIsRead(frame, checksum);
    var unknown: u8 :| frame == KeepAliveFrame(unknown, checksum);
    assert payload == Send(sequence, KeepAliveFrame(unknown, checksum));
  }

  lemma WrittenKeepAlive(crc: Crc, player: u8, sequence: u64, unknown: u8, checksum: u32)
    requires sequence != 0
    ensures Receive(crc, player, Send(sequence, KeepAliveFrame(unknown, checksum))) == Ok(KeepAlive(sequence, checksum))
  {
    hide Receive, Send, DecodeKeepAlive;
    KeepAliveIsRead(KeepAliveFrame(unknown, checksum), checksum);
    SentIsInterpreted(crc, player, sequence, KeepAliveFrame(unknown, checksum));
  }

  /** A checksum reaches the room exactly as some Warcraft wrote it. */
  lemma ChecksumIsWarcrafts(crc: Crc, player: u8, sequence: u64, checksum: u32, payload: seq<u8>)
    ensures Receive(crc, player, payload) == Ok(KeepAlive(sequence, checksum)) <==>
              sequence != 0 && exists unknown: u8 :: payload == Send(sequence, KeepAliveFrame(unknown, checksum))
  {
    hide Receive, Send, KeepAliveFrame;
    if Receive(crc, player, payload) == Ok(KeepAlive(sequence, checksum)) {
      AcceptedKeepAlive(crc, player, sequence, checksum, payload);
    }
    forall unknown: u8 | sequence != 0 && payload == Send(sequence, KeepAliveFrame(unknown, checksum))
      ensures Receive(crc, player, payload) == Ok(KeepAlive(sequence, checksum))
    {
      WrittenKeepAlive(crc, player, sequence, unknown, checksum);
    }
  }
}
