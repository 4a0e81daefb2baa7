/** Player actions and the timeslot frames that carry them to Warcraft. */
module Actions {
  import opened Bytes
  import opened Frames

  const INCOMING_ACTION: u8 := 0x0C
  const OUTGOING_ACTION: u8 := 0x26
  const OUTGOING_KEEPALIVE: u8 := 0x27
  const INCOMING_ACTION_2: u8 := 0x48
  const MAX_ACTION_DATA_BYTES := 1449
  const MAX_SUBPACKET_BYTES := 1452
  const MAX_TIMESLOT_BYTES := 1460

  datatype ActionError =
    | UnexpectedPacketId(packetId: u8)
    | InvalidOutgoingActionLength(actual: nat)
    | InvalidActionChecksum(expected: u32, computed: u32)
    | ActionDataTooLarge(actual: nat)
    | ActionRecordTooLarge(actual: nat)
    | InvalidKeepAliveLength(actual: nat)
    | InvalidPlayerId
    | TimeslotTooLarge(actual: nat)
    | MalformedTimeslot
    | InvalidTimeslotChecksum(expected: u32, computed: u32)
    | FragmentAdvancesTime(increment: u16)
    | EmptyFragment
    | Framing(framing: FrameError)

  datatype PlayerAction = PlayerAction(player: u8, data: seq<u8>)

  predicate ValidAction(a: PlayerAction)
  {
    a.player != 0 && |a.data| <= MAX_ACTION_DATA_BYTES
  }

  predicate ValidActions(actions: seq<PlayerAction>)
  {
    forall i | 0 <= i < |actions| :: ValidAction(actions[i])
  }

  function NewAction(player: u8, data: seq<u8>): (r: Result<PlayerAction, ActionError>)
    ensures r.Ok? <==> ValidAction(PlayerAction(player, data))
    ensures r.Ok? ==> r.value == PlayerAction(player, data)
  {
    if player == 0 then Err(InvalidPlayerId)
    else if |data| > MAX_ACTION_DATA_BYTES then Err(ActionDataTooLarge(|data|))
    else Ok(PlayerAction(player, data))
  }

  function RecordLength(a: PlayerAction): (n: nat)
    ensures n >= 3
  {
    3 + |a.data|
  }

  /** One record: player id, 16-bit data length, data. */
  function Record(a: PlayerAction): (bytes: seq<u8>)
    ensures |bytes| == RecordLength(a)
  {
    [a.player] + Le(2, |a.data|) + a.data
  }

  function Records(actions: seq<PlayerAction>): (bytes: seq<u8>)
    ensures |bytes| == ByteCount(actions)
  {
    if actions == [] then [] else Record(actions[0]) + Records(actions[1..])
  }

  function ByteCount(actions: seq<PlayerAction>): (n: nat)
    ensures n >= |actions|
  {
    if actions == [] then 0 else RecordLength(actions[0]) + ByteCount(actions[1..])
  }

  lemma {:induction false} ByteCountAppend(a: seq<PlayerAction>, b: seq<PlayerAction>)
    ensures ByteCount(a + b) == ByteCount(a) + ByteCount(b)
  {
    if a == [] {
      assert a + b == b;
    } else {
      assert (a + b)[1..] == a[1..] + b;
      ByteCountAppend(a[1..], b);
    }
  }

  lemma {:induction false} RecordsAppend(a: seq<PlayerAction>, b: seq<PlayerAction>)
    ensures Records(a + b) == Records(a) + Records(b)
  {
    if a == [] {
      assert a + b == b;
    } else {
      assert (a + b)[1..] == a[1..] + b;
      RecordsAppend(a[1..], b);
    }
  }

  /** The meaning of a run of records. */
  function ParseRecords(bytes: seq<u8>): (r: Result<seq<PlayerAction>, ActionError>)
    decreases |bytes|
  {
    if bytes == [] then Ok([])
    else if |bytes| < 3 then Err(MalformedTimeslot)
    else
      var end := 3 + FromLe16(bytes[1..3]);
      if end > |bytes| then Err(MalformedTimeslot)
      else
        var action := NewAction(bytes[0], bytes[3..end]);
        if action.Err? then Err(action.error)
        else
          Prepend([action.value], ParseRecords(bytes[end..]))
  }

  function Prepend(front: seq<PlayerAction>, r: Result<seq<PlayerAction>, ActionError>)
    : (whole: Result<seq<PlayerAction>, ActionError>)
  {
    if r.Err? then r else Ok(front + r.value)
  }

  lemma PrependNothing(r: Result<seq<PlayerAction>, ActionError>)
    ensures Prepend([], r) == r
  {
    if r.Ok? {
      assert [] + r.value == r.value;
    }
  }

  lemma PrependTwice(front: seq<PlayerAction>, middle: seq<PlayerAction>, r: Result<seq<PlayerAction>, ActionError>)
    ensures Prepend(front, Prepend(middle, r)) == Prepend(front + middle, r)
  {
    if r.Ok? {
      assert front + (middle + r.value) == (front + middle) + r.value;
    }
  }

  lemma ParseOneRecord(bytes: seq<u8>, offset: nat)
    requires offset < |bytes|
    ensures |bytes| - offset < 3 ==> ParseRecords(bytes[offset..]) == Err(MalformedTimeslot)
    ensures |bytes| - offset >= 3 ==>
              var end := offset + 3 + FromLe16(bytes[offset + 1..offset + 3]);
              ParseRecords(bytes[offset..]) ==
                if end > |bytes| then Err(MalformedTimeslot)
                else
                  var action := NewAction(bytes[offset], bytes[offset + 3..end]);
                  if action.Err? then Err(action.error) else Prepend([action.value], ParseRecords(bytes[end..]))
  {
    var tail := bytes[offset..];
    if |tail| >= 3 {
      assert tail[1..3] == bytes[offset + 1..offset + 3];
      var length := FromLe16(bytes[offset + 1..offset + 3]);
      if 3 + length <= |tail| {
        assert tail[3..3 + length] == bytes[offset + 3..offset + 3 + length];
        assert tail[3 + length..] == bytes[offset + 3 + length..];
      }
    }
  }

  method DecodePlayerActions(bytes: seq<u8>) returns (r: Result<seq<PlayerAction>, ActionError>)
    ensures r == ParseRecords(bytes)
  {
    var actions: seq<PlayerAction> := [];
    var offset := 0;
    assert bytes[0..] == bytes;
    PrependNothing(ParseRecords(bytes));
    while offset < |bytes|
      invariant 0 <= offset <= |bytes|
      invariant ParseRecords(bytes) == Prepend(actions, ParseRecords(bytes[offset..]))
    {
      ParseOneRecord(bytes, offset);
      if |bytes| - offset < 3 {
        return Err(MalformedTimeslot);
      }
      var player := bytes[offset];
      var length := FromLe16(bytes[offset + 1..offset + 3]);
      offset := offset + 3;
      var end := offset + length;
      if end > |bytes| {
        return Err(MalformedTimeslot);
      }
      var action := NewAction(player, bytes[offset..end]);
      if action.Err? {
        return Err(action.error);
      }
      PrependTwice(actions, [action.value], ParseRecords(bytes[end..]));
      actions := actions + [action.value];
      offset := end;
    }
    assert bytes[|bytes|..] == [];
    assert actions + [] == actions;
    r := Ok(actions);
  }

  /** Parsing inverts encoding exactly for the actions the constructor admits. */
  lemma {:induction false} ParseRecordsRoundTrip(actions: seq<PlayerAction>)
    ensures ParseRecords(Records(actions)) == Ok(actions) <==> ValidActions(actions)
  {
    if actions != [] {
      var a := actions[0];
      var bytes := Records(actions);
      if ValidActions(actions) {
        Le16RoundTrip(|a.data|);
        assert bytes[1..3] == Le(2, |a.data|);
        assert bytes[3..3 + |a.data|] == a.data;
        assert bytes[3 + |a.data|..] == Records(actions[1..]);
        assert forall i | 0 < i < |actions| :: actions[i] == actions[1..][i - 1];
        ParseRecordsRoundTrip(actions[1..]);
        assert [a] + actions[1..] == actions;
      } else if ParseRecords(bytes).Ok? {
        ParsedAreValid(bytes);
      }
    }
  }

  lemma {:induction false} ParsedAreValid(bytes: seq<u8>)
    requires ParseRecords(bytes).Ok?
    ensures ValidActions(ParseRecords(bytes).value)
    decreases |bytes|
  {
    if bytes != [] {
      ParsedAreValid(bytes[3 + FromLe16(bytes[1..3])..]);
    }
  }

  /** Any accepted run of records is the encoding of what it parses to. */
  lemma {:induction false} ParseRecordsCanonical(bytes: seq<u8>)
    requires ParseRecords(bytes).Ok?
    ensures Records(ParseRecords(bytes).value) == bytes
    ensures bytes != [] ==> ParseRecords(bytes).value != []
    decreases |bytes|
  {
    if bytes != [] {
      var end := 3 + FromLe16(bytes[1..3]);
      var actions := ParseRecords(bytes).value;
      ParseRecordsCanonical(bytes[end..]);
      LeCanonical(bytes[1..3]);
      assert actions[1..] == ParseRecords(bytes[end..]).value;
      assert bytes == [bytes[0]] + bytes[1..3] + bytes[3..end] + bytes[end..];
    }
  }

  /** A decoded timeslot: fragments carry actions only, the closing frame also advances the clock. */
  datatype Timeslot = Timeslot(fragment: bool, increment: u16, actions: seq<PlayerAction>)

  predicate ValidTimeslot(t: Timeslot)
  {
    && ValidActions(t.actions)
    && ByteCount(t.actions) <= MAX_SUBPACKET_BYTES
    && (t.fragment ==> t.increment == 0 && t.actions != [])
  }

  function Crc16(crc: Crc, bytes: seq<u8>): (x: u16)
  {
    crc(bytes) % 0x1_0000
  }

  function TimeslotPayload(crc: Crc, increment: u16, actions: seq<PlayerAction>): (payload: seq<u8>)
    ensures |payload| == 4 + ByteCount(actions)
  {
    Le(2, increment) + Le(2, Crc16(crc, Records(actions))) + Records(actions)
  }

  function TimeslotFrame(crc: Crc, t: Timeslot): (f: Frame)
    requires ByteCount(t.actions) <= MAX_SUBPACKET_BYTES
    ensures EncodedLength(f) <= MAX_TIMESLOT_BYTES
  {
    Frame(if t.fragment then INCOMING_ACTION_2 else INCOMING_ACTION,
          if t.actions == [] then Le(2, t.increment) else TimeslotPayload(crc, t.increment, t.actions))
  }

  function DecodeTimeslot(crc: Crc, f: Frame): (r: Result<Timeslot, ActionError>)
  {
    if f.packetId != INCOMING_ACTION && f.packetId != INCOMING_ACTION_2 then Err(UnexpectedPacketId(f.packetId))
    else
      var fragment := f.packetId == INCOMING_ACTION_2;
      if EncodedLength(f) > MAX_TIMESLOT_BYTES then Err(TimeslotTooLarge(EncodedLength(f)))
      else if |f.payload| < 2 then Err(MalformedTimeslot)
      else
        var increment := FromLe16(f.payload[..2]);
        if fragment && increment != 0 then Err(FragmentAdvancesTime(increment))
        else if |f.payload| == 2 then
          if fragment then Err(EmptyFragment) else Ok(Timeslot(false, increment, []))
        else if |f.payload| < 4 then Err(MalformedTimeslot)
        else
          var expected := FromLe16(f.payload[2..4]);
          var computed := Crc16(crc, f.payload[4..]);
          if expected != computed then Err(InvalidTimeslotChecksum(expected, computed))
          else
            var actions := ParseRecords(f.payload[4..]);
            if actions.Err? then Err(actions.error)
            else if actions.value == [] then Err(MalformedTimeslot)
            else Ok(Timeslot(fragment, increment, actions.value))
  }

  lemma TimeslotRoundTrip(crc: Crc, t: Timeslot)
    requires ByteCount(t.actions) <= MAX_SUBPACKET_BYTES
    ensures DecodeTimeslot(crc, TimeslotFrame(crc, t)) == Ok(t) <==> ValidTimeslot(t)
  {
    var payload := TimeslotFrame(crc, t).payload;
    assert payload[..2] == Le(2, t.increment);
    Le16RoundTrip(t.increment);
    ParseRecordsRoundTrip(t.actions);
    if t.actions != [] {
      assert payload[2..4] == Le(2, Crc16(crc, Records(t.actions)));
      assert payload[4..] == Records(t.actions);
      Le16RoundTrip(Crc16(crc, Records(t.actions)));
    }
  }

  /** Any accepted timeslot frame is the encoding of what it decodes to. */
  lemma TimeslotCanonical(crc: Crc, f: Frame)
    requires DecodeTimeslot(crc, f).Ok?
    ensures ValidTimeslot(DecodeTimeslot(crc, f).value)
    ensures TimeslotFrame(crc, DecodeTimeslot(crc, f).value) == f
  {
    var t := DecodeTimeslot(crc, f).value;
    LeCanonical(f.payload[..2]);
    if |f.payload| > 2 {
      ParseRecordsCanonical(f.payload[4..]);
      ParsedAreValid(f.payload[4..]);
      LeCanonical(f.payload[2..4]);
      assert f.payload == f.payload[..2] + f.payload[2..4] + f.payload[4..];
    } else {
      assert f.payload == f.payload[..2];
    }
  }

  /** Actions sent by Warcraft: a 32-bit checksum followed by the data. */
  function DecodeOutgoingAction(crc: Crc, f: Frame): (r: Result<seq<u8>, ActionError>)
  {
    if f.packetId != OUTGOING_ACTION then Err(UnexpectedPacketId(f.packetId))
    else if |f.payload| < 4 then Err(InvalidOutgoingActionLength(|f.payload|))
    else
      var expected := FromLe32(f.payload[..4]);
      var data := f.payload[4..];
      if |data| > MAX_ACTION_DATA_BYTES then Err(ActionDataTooLarge(|data|))
      else if expected != crc(data) then Err(InvalidActionChecksum(expected, crc(data)))
      else Ok(data)
  }

  /** The checksum of a keepalive; the first payload byte is ignored. */
  function DecodeKeepAlive(f: Frame): (r: Result<u32, ActionError>)
  {
    if f.packetId != OUTGOING_KEEPALIVE then Err(UnexpectedPacketId(f.packetId))
    else if |f.payload| != 5 then Err(InvalidKeepAliveLength(|f.payload|))
    else Ok(FromLe32(f.payload[1..5]))
  }

  function OutgoingActionFrame(crc: Crc, data: seq<u8>): (f: Frame)
    requires |data| <= MAX_ACTION_DATA_BYTES
    ensures EncodedLength(f) <= MAX_TIMESLOT_BYTES
  {
    Frame(OUTGOING_ACTION, Le(4, crc(data)) + data)
  }

  lemma OutgoingActionRoundTrip(crc: Crc, data: seq<u8>)
    requires |data| <= MAX_ACTION_DATA_BYTES
    ensures DecodeOutgoingAction(crc, OutgoingActionFrame(crc, data)) == Ok(data)
  {
    var f := OutgoingActionFrame(crc, data);
    assert f.payload[..4] == Le(4, crc(data));
    assert f.payload[4..] == data;
    Le32RoundTrip(crc(data));
  }

  lemma OutgoingActionCanonical(crc: Crc, f: Frame)
    requires DecodeOutgoingAction(crc, f).Ok?
    ensures |DecodeOutgoingAction(crc, f).value| <= MAX_ACTION_DATA_BYTES
    ensures OutgoingActionFrame(crc, DecodeOutgoingAction(crc, f).value) == f
  {
    LeCanonical(f.payload[..4]);
    assert f.payload == f.payload[..4] + f.payload[4..];
  }
}
