/** The map transfer: a sliding window over one file, and the session states around it. */
module MapModel {
  import opened Bytes
  import opened Frames

  const START_DOWNLOAD: u8 := 0x3F
  const MAP_SIZE: u8 := 0x42
  const MAP_PART: u8 := 0x43
  const MAP_PART_DATA_BYTES := 1442
  const MAP_TRANSFER_WINDOW_PARTS := 100
  const WINDOW := 144200
  const MAP_TRANSFER_MARKER := 1

  datatype MapError =
    | UnexpectedPacketId(packetId: u8)
    | InvalidPayloadLength(actual: nat)
    | InvalidMarker(marker: u32)
    | InvalidPlayerId(playerId: u8)
    | InvalidMapPartLength(actual: nat)
    | MapPartRangeOverflow
    | OffsetBeyondMap(offset: u32, mapSize: nat)
    | WrongPreparedSize(actual: nat, expected: u32)
    | UnsupportedFlag(flag: u8)
    | InconsistentAfterVerification
    | PreparationFailed
    | PreparationTimedOut
    | TransferTimedOut
    | TransferStalled

  /** A map file: its size is a 32-bit number. */
  type MapData = data: seq<u8> | |data| <= U32_MAX

  // Frames.

  datatype MapSize = MapSize(flag: u8, size: u32)

  function DecodeMapSize(f: Frame): (r: Result<MapSize, MapError>)
  {
    if f.packetId != MAP_SIZE then Err(UnexpectedPacketId(f.packetId))
    else if |f.payload| != 9 then Err(InvalidPayloadLength(|f.payload|))
    else if FromLe32(f.payload[..4]) != MAP_TRANSFER_MARKER then Err(InvalidMarker(FromLe32(f.payload[..4])))
    else Ok(MapSize(f.payload[4], FromLe32(f.payload[5..9])))
  }

  predicate ValidPlayerId(id: u8)
  {
    id != 0 && id != 255
  }

  function StartDownloadFrame(from: u8): (r: Result<Frame, MapError>)
  {
    if !ValidPlayerId(from) then Err(InvalidPlayerId(from))
    else Ok(Frame(START_DOWNLOAD, Le(4, MAP_TRANSFER_MARKER) + [from]))
  }

  function MapPartFrame(crc: Crc, from: u8, to: u8, start: u32, data: seq<u8>): (r: Result<Frame, MapError>)
  {
    if !ValidPlayerId(from) then Err(InvalidPlayerId(from))
    else if !ValidPlayerId(to) then Err(InvalidPlayerId(to))
    else if data == [] || |data| > MAP_PART_DATA_BYTES then Err(InvalidMapPartLength(|data|))
    else if start + |data| > U32_MAX then Err(MapPartRangeOverflow)
    else Ok(Frame(MAP_PART, [to, from] + Le(4, MAP_TRANSFER_MARKER) + Le(4, start) + Le(4, crc(data)) + data))
  }

  /** What Warcraft reads off a map part: where it goes and what it holds. */
  datatype Part = Part(start: u32, bytes: seq<u8>)

  function DecodePart(crc: Crc, f: Frame): (p: Option<Part>)
  {
    if f.packetId != MAP_PART || |f.payload| <= 14 then None
    else if FromLe32(f.payload[2..6]) != MAP_TRANSFER_MARKER then None
    else if FromLe32(f.payload[10..14]) != crc(f.payload[14..]) then None
    else Some(Part(FromLe32(f.payload[6..10]), f.payload[14..]))
  }

  lemma PartRoundTrip(crc: Crc, from: u8, to: u8, start: u32, data: seq<u8>)
    ensures var f := MapPartFrame(crc, from, to, start, data);
            && (f.Ok? <==> ValidPlayerId(from) && ValidPlayerId(to) && 1 <= |data| <= MAP_PART_DATA_BYTES
                           && start + |data| <= U32_MAX)
            && (f.Ok? ==> DecodePart(crc, f.value) == Some(Part(start, data)))
  {
    var f := MapPartFrame(crc, from, to, start, data);
    if f.Ok? {
      var payload := f.value.payload;
      assert payload[2..6] == Le(4, MAP_TRANSFER_MARKER);
      assert payload[6..10] == Le(4, start);
      assert payload[10..14] == Le(4, crc(data));
      assert payload[14..] == data;
      Le32RoundTrip(MAP_TRANSFER_MARKER);
      Le32RoundTrip(start);
      Le32RoundTrip(crc(data));
    }
  }

  // One transfer.

  datatype Transfer = Transfer(data: MapData, from: u8, to: u8, next: nat, acknowledged: nat)

  predicate ValidTransfer(t: Transfer)
  {
    && t.next <= |t.data| && t.acknowledged <= |t.data|
    && t.next < t.acknowledged + WINDOW + MAP_PART_DATA_BYTES
  }

  function NewTransfer(data: seq<u8>, from: u8, to: u8, expected: u32): (r: Result<Transfer, MapError>)
    ensures r.Ok? ==> ValidTransfer(r.value)
  {
    if |data| != expected then Err(WrongPreparedSize(|data|, expected))
    else Ok(Transfer(data, from, to, 0, 0))
  }

  /** The transfer after an acknowledgement, and whether it was news. */
  function Acknowledged(t: Transfer, offset: u32): (r: Result<(Transfer, bool), MapError>)
  {
    if offset > |t.data| then Err(OffsetBeyondMap(offset, |t.data|))
    else if offset <= t.acknowledged then Ok((t, false))
    else Ok((t.(acknowledged := offset), true))
  }

  /** The end of the window, saturating at the largest 32-bit offset. */
  function WindowEnd(acknowledged: nat): (end: nat)
  {
    if acknowledged + WINDOW > U32_MAX then U32_MAX else acknowledged + WINDOW
  }

  function PartEnd(data: MapData, next: nat): (end: nat)
  {
    if next + MAP_PART_DATA_BYTES > |data| then |data| else next + MAP_PART_DATA_BYTES
  }

  /** The parts a window lets through, from `next` on. */
  function NextParts(data: MapData, next: nat, end: nat): (parts: seq<Part>)
    decreases |data| - next
  {
    if next < |data| && next < end
    then [Part(next, data[next..PartEnd(data, next)])] + NextParts(data, PartEnd(data, next), end)
    else []
  }

  /** Where the window stops. */
  function Reached(data: MapData, next: nat, end: nat): (offset: nat)
    decreases |data| - next
  {
    if next < |data| && next < end then Reached(data, PartEnd(data, next), end) else next
  }

  function PartFrames(crc: Crc, from: u8, to: u8, parts: seq<Part>): (r: Result<seq<Frame>, MapError>)
  {
    if parts == [] then Ok([])
    else
      var first := MapPartFrame(crc, from, to, parts[0].start, parts[0].bytes);
      if first.Err? then Err(first.error)
      else
        var rest := PartFrames(crc, from, to, parts[1..]);
        if rest.Err? then Err(rest.error) else Ok([first.value] + rest.value)
  }

  predicate GoodPart(p: Part, end: nat)
  {
    && 1 <= |p.bytes| <= MAP_PART_DATA_BYTES
    && p.start + |p.bytes| <= U32_MAX
    && p.start < end
  }

  predicate GoodParts(parts: seq<Part>, end: nat)
  {
    forall i | 0 <= i < |parts| :: GoodPart(parts[i], end)
  }

  lemma {:induction false} PartsInRange(data: MapData, next: nat, end: nat)
    requires next <= |data|
    ensures GoodParts(NextParts(data, next, end), end)
    decreases |data| - next
  {
    if next < |data| && next < end {
      PartsInRange(data, PartEnd(data, next), end);
      var parts := NextParts(data, next, end);
      var rest := NextParts(data, PartEnd(data, next), end);
      forall i | 0 <= i < |parts| ensures GoodPart(parts[i], end) {
        assert i > 0 ==> parts[i] == rest[i - 1];
      }
    }
  }

  lemma {:induction false} ReachedInRange(data: MapData, next: nat, end: nat)
    requires next <= |data|
    ensures next <= Reached(data, next, end) <= |data|
    ensures Reached(data, next, end) == next || Reached(data, next, end) < end + MAP_PART_DATA_BYTES
    ensures Reached(data, next, end) >= end || Reached(data, next, end) == |data|
    ensures next < |data| && next < end ==> Reached(data, next, end) > next
    decreases |data| - next
  {
    if next < |data| && next < end {
      ReachedInRange(data, PartEnd(data, next), end);
    }
  }

  /** The transfer and the parts sent by one advance. */
  function Advanced(t: Transfer): (t': Transfer)
  {
    t.(next := Reached(t.data, t.next, WindowEnd(t.acknowledged)))
  }

  function Sending(t: Transfer): (parts: seq<Part>)
  {
    NextParts(t.data, t.next, WindowEnd(t.acknowledged))
  }

  lemma AdvanceKeepsValid(t: Transfer)
    requires ValidTransfer(t)
    ensures ValidTransfer(Advanced(t)) && t.next <= Advanced(t).next
    ensures GoodParts(Sending(t), WindowEnd(t.acknowledged))
  {
    PartsInRange(t.data, t.next, WindowEnd(t.acknowledged));
    ReachedInRange(t.data, t.next, WindowEnd(t.acknowledged));
  }

  /** The receiver: a part must continue exactly where the last one stopped. */
  function Assemble(received: seq<u8>, parts: seq<Part>): (r: Option<seq<u8>>)
    decreases |parts|
  {
    if parts == [] then Some(received)
    else if parts[0].start != |received| || parts[0].bytes == [] then None
    else Assemble(received + parts[0].bytes, parts[1..])
  }

  lemma {:induction false} AssembleAppend(received: seq<u8>, a: seq<Part>, b: seq<Part>)
    ensures Assemble(received, a + b) ==
              if Assemble(received, a).Some? then Assemble(Assemble(received, a).value, b) else None
    decreases |a|
  {
    if a == [] {
      assert a + b == b;
    } else {
      assert (a + b)[1..] == a[1..] + b;
      if a[0].start == |received| && a[0].bytes != [] {
        AssembleAppend(received + a[0].bytes, a[1..], b);
      }
    }
  }

  lemma {:induction false} PartsContinue(data: MapData, next: nat, end: nat)
    requires next <= |data|
    ensures next <= Reached(data, next, end) <= |data|
    ensures Assemble(data[..next], NextParts(data, next, end)) == Some(data[..Reached(data, next, end)])
    decreases |data| - next
  {
    if next < |data| && next < end {
      var stop := PartEnd(data, next);
      PartsContinue(data, stop, end);
      assert data[..next] + data[next..stop] == data[..stop];
      var parts := NextParts(data, next, end);
      assert parts[1..] == NextParts(data, stop, end);
    }
  }

  /**
   At most a hundred parts, as long as nothing unsent has been acknowledged; always one more after full
   acknowledgement.
   */
  lemma WindowBounds(t: Transfer)
    requires ValidTransfer(t)
    ensures t.acknowledged <= t.next ==> |Sending(t)| <= MAP_TRANSFER_WINDOW_PARTS
    ensures t.acknowledged >= t.next && t.next < |t.data| ==> Sending(t) != []
  {
    if t.acknowledged <= t.next {
      PartCount(t.data, t.next, WindowEnd(t.acknowledged), MAP_TRANSFER_WINDOW_PARTS);
    }
  }

  lemma {:induction false} PartCount(data: MapData, next: nat, end: nat, n: nat)
    requires next <= |data| && end <= next + MAP_PART_DATA_BYTES * n
    ensures |NextParts(data, next, end)| <= n
    decreases |data| - next
  {
    if next < |data| && next < end {
      var stop := PartEnd(data, next);
      if stop < |data| {
        PartCount(data, stop, end, n - 1);
      }
    }
  }

  // Any sequence of calls.

  datatype Call = Acknowledge(offset: u32) | Advance

  datatype Progress = Progress(transfer: Transfer, sent: seq<Part>)

  function Do(p: Progress, call: Call): (p': Progress)
  {
    match call
    case Acknowledge(offset) =>
      var r := Acknowledged(p.transfer, offset);
      if r.Ok? then p.(transfer := r.value.0) else p
    case Advance => Progress(Advanced(p.transfer), p.sent + Sending(p.transfer))
  }

  function DoAll(p: Progress, calls: seq<Call>): (p': Progress)
    decreases |calls|
  {
    if calls == [] then p else Do(DoAll(p, calls[..|calls| - 1]), calls[|calls| - 1])
  }

  predicate SentOnce(p: Progress)
  {
    ValidTransfer(p.transfer) && Assemble([], p.sent) == Some(p.transfer.data[..p.transfer.next])
  }

  lemma DoKeepsSentOnce(p: Progress, call: Call)
    requires SentOnce(p)
    ensures SentOnce(Do(p, call))
    ensures p.transfer.acknowledged <= Do(p, call).transfer.acknowledged && Do(p, call).transfer.data == p.transfer.data
    ensures p.transfer.next <= Do(p, call).transfer.next
  {
    var t := p.transfer;
    if call.Advance? {
      AdvanceKeepsValid(t);
      PartsContinue(t.data, t.next, WindowEnd(t.acknowledged));
      AssembleAppend([], p.sent, Sending(t));
    }
  }

  /**
   Whatever is acknowledged and however often the window advances, the parts sent are the file once, in order:
   a receiver that takes only the exact continuation holds precisely the bytes up to the next offset.
   */
  lemma {:induction false} FileIsSentOnce(data: MapData, from: u8, to: u8, calls: seq<Call>)
    ensures var p := DoAll(Progress(Transfer(data, from, to, 0, 0), []), calls);
            p.transfer.data == data && SentOnce(p)
    decreases |calls|
  {
    if calls != [] {
      FileIsSentOnce(data, from, to, calls[..|calls| - 1]);
      DoKeepsSentOnce(DoAll(Progress(Transfer(data, from, to, 0, 0), []), calls[..|calls| - 1]), calls[|calls| - 1]);
    }
  }

  // Lockstep: Warcraft acknowledges exactly what it has been sent.

  /** `n` rounds of acknowledging everything sent so far and letting the window advance. */
  function Lockstep(p: Progress, n: nat): (calls: seq<Call>)
    requires p.transfer.next <= |p.transfer.data|
    ensures DoAll(p, calls).transfer.data == p.transfer.data
    ensures DoAll(p, calls).transfer.next <= |p.transfer.data|
  {
    if n == 0 then []
    else
      var calls := Lockstep(p, n - 1);
      var q := DoAll(p, calls);
      OneRound(p, calls);
      calls + Round(q)
  }

  function Round(q: Progress): (calls: seq<Call>)
    requires q.transfer.next <= |q.transfer.data|
  {
    [Acknowledge(q.transfer.next), Advance]
  }

  lemma OneRound(p: Progress, calls: seq<Call>)
    requires var t := DoAll(p, calls).transfer; t.next <= |t.data|
    ensures var q := DoAll(p, calls);
            var q' := DoAll(p, calls + Round(q));
            && DoAll(p, calls + [Acknowledge(q.transfer.next)]) == Do(q, Acknowledge(q.transfer.next))
            && q' == Do(Do(q, Acknowledge(q.transfer.next)), Advance)
            && q'.transfer.data == q.transfer.data && q.transfer.next <= q'.transfer.next <= |q.transfer.data|
  {
    hide Acknowledged, NextParts;
    var q := DoAll(p, calls);
    var a := calls + [Acknowledge(q.transfer.next)];
    assert a[..|a| - 1] == calls;
    var b := calls + Round(q);
    assert b[..|b| - 1] == a;
    var q1 := Do(q, Acknowledge(q.transfer.next));
    KeepsOffset(q, q.transfer.next);
    ReachedInRange(q1.transfer.data, q1.transfer.next, WindowEnd(q1.transfer.acknowledged));
  }

  lemma KeepsOffset(q: Progress, offset: u32)
    ensures var q' := Do(q, Acknowledge(offset));
            q'.transfer == q.transfer.(acknowledged := q'.transfer.acknowledged) && q'.sent == q.sent
    ensures q.transfer.acknowledged <= offset <= |q.transfer.data| ==>
              Do(q, Acknowledge(offset)).transfer.acknowledged == offset
  {
  }

  /** No call acknowledges a byte that has not been sent by then. */
  ghost predicate Prudent(p: Progress, calls: seq<Call>)
  {
    forall i | 0 <= i < |calls| && calls[i].Acknowledge? :: calls[i].offset <= DoAll(p, calls[..i]).transfer.next
  }

  /** A window of whole parts is used up to its last byte, unless the file ends first. */
  lemma {:induction false} ReachedExactly(data: MapData, next: nat, parts: nat)
    requires next <= |data|
    ensures var end := next + MAP_PART_DATA_BYTES * parts;
            Reached(data, next, end) == if |data| < end then |data| else end
    decreases parts
  {
    if parts > 0 && next < |data| {
      var end := next + MAP_PART_DATA_BYTES * parts;
      var stop := PartEnd(data, next);
      if stop < |data| {
        ReachedExactly(data, stop, parts - 1);
      }
    }
  }

  /** One round moves the offset on by a whole window, or to the end of the file. */
  lemma RoundReaches(q: Progress)
    requires q.transfer.acknowledged <= q.transfer.next <= |q.transfer.data|
    ensures var t' := Do(Do(q, Acknowledge(q.transfer.next)), Advance).transfer;
            && t'.next == (if |q.transfer.data| < q.transfer.next + WINDOW then |q.transfer.data|
                           else q.transfer.next + WINDOW)
            && t'.acknowledged == q.transfer.next
  {
    hide Reached, NextParts;
    var t := q.transfer;
    KeepsOffset(q, t.next);
    ReachedExactly(t.data, t.next, MAP_TRANSFER_WINDOW_PARTS);
    ReachedInRange(t.data, t.next, WindowEnd(t.next));
  }

  lemma PrudentMore(p: Progress, calls: seq<Call>)
    requires var t := DoAll(p, calls).transfer; t.next <= |t.data|
    requires Prudent(p, calls)
    ensures Prudent(p, calls + Round(DoAll(p, calls)))
  {
    hide DoAll;
    var more := calls + Round(DoAll(p, calls));
    forall i | 0 <= i < |more| && more[i].Acknowledge?
      ensures more[i].offset <= DoAll(p, more[..i]).transfer.next
    {
      assert more[..i] == calls[..i];
    }
  }

  /**
   In lockstep nothing unsent is acknowledged, every round sends a whole window or the rest of the file, and the
   receiver holds exactly what has been sent: the file is complete after `n` rounds if and only if `n` windows
   hold what was missing.
   */
  lemma {:induction false} LockstepCompletes(p: Progress, n: nat)
    requires SentOnce(p) && p.transfer.acknowledged <= p.transfer.next
    ensures var calls := Lockstep(p, n);
            var t := DoAll(p, calls).transfer;
            && |calls| == 2 * n && Prudent(p, calls)
            && t.data == p.transfer.data && t.acknowledged <= t.next
            && (t.next == |t.data| <==> p.transfer.next + n * WINDOW >= |t.data|)
            && (t.next < |t.data| ==> t.next == p.transfer.next + n * WINDOW)
            && SentOnce(DoAll(p, calls))
  {
    hide Do, SentOnce, Prudent, Round;
    SentOnceIsValid(p);
    if n == 0 {
      NothingIsPrudent(p);
    } else {
      var calls := Lockstep(p, n - 1);
      var q := DoAll(p, calls);
      LockstepCompletes(p, n - 1);
      OneRound(p, calls);
      PrudentMore(p, calls);
      RoundReaches(q);
      DoKeepsSentOnce(q, Acknowledge(q.transfer.next));
      DoKeepsSentOnce(Do(q, Acknowledge(q.transfer.next)), Advance);
      RoundLength(q);
    }
  }

  lemma RoundLength(q: Progress)
    requires q.transfer.next <= |q.transfer.data|
    ensures |Round(q)| == 2
  {
  }

  lemma NothingIsPrudent(p: Progress)
    ensures Prudent(p, [])
  {
  }

  lemma SentOnceIsValid(p: Progress)
    requires SentOnce(p)
    ensures ValidTransfer(p.transfer)
  {
  }

  // The session around the transfer.

  datatype MapState =
    | AwaitingStatus
    | Preparing(from: u8, to: u8)
    | Downloading(transfer: Transfer)
    | Verified

  /** The new state, whether Warcraft has just become ready, and the frames written. */
  datatype MapStep = MapStep(state: MapState, ready: bool, frames: seq<Frame>)

  /** Warcraft reports how much of the map it has. */
  function OnMapSize(state: MapState, frame: Frame, expected: u32, host: u8, local: u8): (r: Result<MapStep, MapError>)
  {
    var decoded := DecodeMapSize(frame);
    if decoded.Err? then Err(decoded.error)
    else
      var report := decoded.value;
      if report.flag == 1 && report.size == expected then Ok(MapStep(Verified, !state.Verified?, []))
      else if report.size > expected then Err(OffsetBeyondMap(report.size, expected))
      else if report.flag != 1 && report.flag != 3 then Err(UnsupportedFlag(report.flag))
      else
        match state
        case AwaitingStatus =>
          var start := StartDownloadFrame(host);
          if start.Err? then Err(start.error) else Ok(MapStep(Preparing(host, local), false, [start.value]))
        case Preparing(_, _) => Ok(MapStep(state, false, []))
        case Downloading(transfer) =>
          if report.flag != 3 then Ok(MapStep(state, false, []))
          else
            var r := Acknowledged(transfer, report.size);
            if r.Err? then Err(r.error) else Ok(MapStep(Downloading(r.value.0), false, []))
        case Verified => Err(InconsistentAfterVerification)
  }

  /** What the clock says when the transfer timer fires. */
  datatype Clocks = Clocks(preparationLate: bool, transferLate: bool, stalled: bool)

  /** The frames of one advance; nothing is sent when an id is unusable. */
  function OnWindow(crc: Crc, t: Transfer): (r: Result<MapStep, MapError>)
    requires ValidTransfer(t)
  {
    var frames := PartFrames(crc, t.from, t.to, Sending(t));
    if frames.Err? then Err(frames.error) else Ok(MapStep(Downloading(Advanced(t)), false, frames.value))
  }

  predicate ValidState(state: MapState)
  {
    state.Downloading? ==> ValidTransfer(state.transfer)
  }

  /** The transfer timer fires; `prepared` is the finished preparation task's result, if it has finished. */
  function OnTimer(crc: Crc, state: MapState, prepared: Option<Option<seq<u8>>>, expected: u32,
                   clocks: Clocks): (r: Result<MapStep, MapError>)
    requires ValidState(state)
  {
    match state
    case Preparing(from, to) =>
      if clocks.preparationLate then Err(PreparationTimedOut)
      else if prepared.None? then Ok(MapStep(state, false, []))
      else if prepared.value.None? then Err(PreparationFailed)
      else
        var t := NewTransfer(prepared.value.value, from, to, expected);
        if t.Err? then Err(t.error) else OnWindow(crc, t.value)
    case Downloading(t) =>
      if clocks.transferLate then Err(TransferTimedOut)
      else if clocks.stalled then Err(TransferStalled)
      else OnWindow(crc, t)
    case _ => Ok(MapStep(state, false, []))
  }

  /** A transfer may only follow a request, and nothing follows verification; readiness is reported once. */
  predicate MapEdge(before: MapState, step: MapStep)
  {
    match before
    case AwaitingStatus => step.state.AwaitingStatus? || step.state.Preparing? || step.state.Verified?
    case Preparing(_, _) => !step.state.AwaitingStatus?
    case Downloading(t) =>
      || step.state.Verified?
      || (step.state.Downloading? && step.state.transfer.data == t.data
          && t.next <= step.state.transfer.next && t.acknowledged <= step.state.transfer.acknowledged)
    case Verified => step.state.Verified? && !step.ready && step.frames == []
  }

  lemma MapSizeEdge(state: MapState, frame: Frame, expected: u32, host: u8, local: u8)
    requires ValidState(state)
    ensures var r := OnMapSize(state, frame, expected, host, local);
            r.Ok? ==>
              && ValidState(r.value.state) && MapEdge(state, r.value)
              && (r.value.ready <==> r.value.state.Verified? && !state.Verified?)
  {
  }

  lemma TimerEdge(crc: Crc, state: MapState, prepared: Option<Option<seq<u8>>>, expected: u32, clocks: Clocks)
    requires ValidState(state)
    ensures var r := OnTimer(crc, state, prepared, expected, clocks);
            r.Ok? ==> ValidState(r.value.state) && MapEdge(state, r.value) && !r.value.ready
  {
    hide PartFrames, NextParts, Reached;
    if state.Downloading? {
      AdvanceKeepsValid(state.transfer);
    } else if state.Preparing? && prepared.Some? && prepared.value.Some? {
      var t := NewTransfer(prepared.value.value, state.from, state.to, expected);
      if t.Ok? {
        AdvanceKeepsValid(t.value);
      }
    }
  }

  // A whole session.

  /** The parts Warcraft reads off the frames written to it. */
  function PartsIn(crc: Crc, frames: seq<Frame>): (parts: seq<Part>)
  {
    if frames == [] then []
    else
      (if DecodePart(crc, frames[0]).Some? then [DecodePart(crc, frames[0]).value] else [])
      + PartsIn(crc, frames[1..])
  }

  lemma {:induction false} PartsInAppend(crc: Crc, a: seq<Frame>, b: seq<Frame>)
    ensures PartsIn(crc, a + b) == PartsIn(crc, a) + PartsIn(crc, b)
    decreases |a|
  {
    hide DecodePart;
    if a == [] {
      assert a + b == b;
    } else {
      assert (a + b)[1..] == a[1..] + b;
      PartsInAppend(crc, a[1..], b);
    }
  }

  /** The frames of an advance decode to exactly the parts it sends. */
  lemma {:induction false} FramesCarryParts(crc: Crc, from: u8, to: u8, parts: seq<Part>)
    ensures var r := PartFrames(crc, from, to, parts); r.Ok? ==> PartsIn(crc, r.value) == parts
    decreases |parts|
  {
    hide MapPartFrame, DecodePart;
    if parts != [] {
      var r := PartFrames(crc, from, to, parts);
      if r.Ok? {
        PartRoundTrip(crc, from, to, parts[0].start, parts[0].bytes);
        FramesCarryParts(crc, from, to, parts[1..]);
        assert r.value[1..] == PartFrames(crc, from, to, parts[1..]).value;
      }
    }
  }

  datatype MapEvent =
    | Report(frame: Frame)
    | Timer(prepared: Option<Option<seq<u8>>>, clocks: Clocks)

  datatype MapSession = MapSession(expected: u32, host: u8, local: u8, crc: Crc)

  /** A session so far: its state, how often Warcraft became ready, and all frames written for the map. */
  datatype MapRun = MapRun(state: MapState, readied: nat, frames: seq<Frame>)

  function Occurs(m: MapSession, r: MapRun, e: MapEvent): (r': Option<MapRun>)
    requires ValidState(r.state)
  {
    var step := match e
                case Report(frame) => OnMapSize(r.state, frame, m.expected, m.host, m.local)
                case Timer(prepared, clocks) => OnTimer(m.crc, r.state, prepared, m.expected, clocks);
    if step.Err? then None
    else Some(MapRun(step.value.state, r.readied + if step.value.ready then 1 else 0, r.frames + step.value.frames))
  }

  /**
   Ready exactly when verified; what Warcraft received is the file from its start, in order, without gap or
   repeat.
   */
  predicate Sane(m: MapSession, r: MapRun)
  {
    && ValidState(r.state)
    && r.readied == (if r.state.Verified? then 1 else 0)
    && Assemble([], PartsIn(m.crc, r.frames)).Some?
    && (r.state.AwaitingStatus? || r.state.Preparing? ==> PartsIn(m.crc, r.frames) == [])
    && (r.state.Downloading? ==>
          Assemble([], PartsIn(m.crc, r.frames)) == Some(r.state.transfer.data[..r.state.transfer.next]))
  }

  lemma WindowIsSane(m: MapSession, t: Transfer, frames: seq<Frame>)
    requires ValidTransfer(t) && Assemble([], PartsIn(m.crc, frames)) == Some(t.data[..t.next])
    ensures var r := OnWindow(m.crc, t);
            r.Ok? ==>
              && r.value.state == Downloading(Advanced(t)) && ValidTransfer(Advanced(t)) && !r.value.ready
              && Assemble([], PartsIn(m.crc, frames + r.value.frames)) == Some(t.data[..Advanced(t).next])
  {
    hide PartsIn, Assemble;
    AdvanceKeepsValid(t);
    if OnWindow(m.crc, t).Ok? {
      var sent := OnWindow(m.crc, t).value.frames;
      FramesCarryParts(m.crc, t.from, t.to, Sending(t));
      PartsInAppend(m.crc, frames, sent);
      PartsContinue(t.data, t.next, WindowEnd(t.acknowledged));
      AssembleAppend([], PartsIn(m.crc, frames), Sending(t));
    }
  }

  lemma TimerIsSane(m: MapSession, r: MapRun, prepared: Option<Option<seq<u8>>>, clocks: Clocks)
    requires Sane(m, r)
    ensures var r' := Occurs(m, r, Timer(prepared, clocks)); r'.Some? ==> Sane(m, r'.value)
  {
    hide PartsIn, OnWindow;
    assert r.frames + [] == r.frames;
    if r.state.Downloading? {
      WindowIsSane(m, r.state.transfer, r.frames);
    } else if r.state.Preparing? && prepared.Some? && prepared.value.Some? {
      var t := NewTransfer(prepared.value.value, r.state.from, r.state.to, m.expected);
      if t.Ok? {
        assert t.value.data[..0] == [];
        WindowIsSane(m, t.value, r.frames);
      }
    }
  }

  lemma ReportIsSane(m: MapSession, r: MapRun, frame: Frame)
    requires Sane(m, r)
    ensures var r' := Occurs(m, r, Report(frame)); r'.Some? ==> Sane(m, r'.value)
  {
    hide PartsIn, DecodeMapSize;
    assert r.frames + [] == r.frames;
    var start := StartDownloadFrame(m.host);
    if start.Ok? {
      StartIsNoPart(m.crc, start.value);
      PartsInAppend(m.crc, r.frames, [start.value]);
    }
  }

  lemma StartIsNoPart(crc: Crc, f: Frame)
    requires f.packetId == START_DOWNLOAD
    ensures PartsIn(crc, [f]) == []
  {
    assert [f][1..] == [];
  }

  predicate IsRun(m: MapSession, r: MapRun, events: seq<MapEvent>, r': MapRun)
    requires ValidState(r.state)
    decreases |events|
  {
    if events == [] then r' == r
    else
      var next := Occurs(m, r, events[0]);
      next.Some? && ValidState(next.value.state) && IsRun(m, next.value, events[1..], r')
  }

  lemma {:induction false} RunIsSane(m: MapSession, r: MapRun, events: seq<MapEvent>, r': MapRun)
    requires Sane(m, r) && IsRun(m, r, events, r')
    ensures Sane(m, r')
    decreases |events|
  {
    hide Occurs, PartsIn, Assemble;
    if events != [] {
      match events[0] {
        case Report(frame) => ReportIsSane(m, r, frame);
        case Timer(prepared, clocks) => TimerIsSane(m, r, prepared, clocks);
      }
      RunIsSane(m, Occurs(m, r, events[0]).value, events[1..], r');
    }
  }

  /** Any map session that has not failed: Warcraft is told to be ready at most once, and holds a prefix of the file. */
  lemma MapSessionIsSane(m: MapSession, events: seq<MapEvent>, r: MapRun)
    requires IsRun(m, MapRun(AwaitingStatus, 0, []), events, r)
    ensures Sane(m, r) && r.readied <= 1
  {
    RunIsSane(m, MapRun(AwaitingStatus, 0, []), events, r);
  }
}
