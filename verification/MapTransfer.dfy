/** The map transfer as the agent runs it: offsets advanced in place, session states around them. */
module MapTransfer {
  import opened Bytes
  import opened Frames
  import opened MapModel

  class ActiveMapTransfer {
    const data: MapData
    const from: u8
    const to: u8
    var nextOffset: u32
    var acknowledgedOffset: u32

    ghost predicate Valid()
      reads this
    {
      ValidTransfer(View())
    }

    ghost function View(): (t: Transfer)
      reads this
    {
      Transfer(data, from, to, nextOffset, acknowledgedOffset)
    }

    constructor (data: MapData, from: u8, to: u8)
      ensures Valid() && View() == Transfer(data, from, to, 0, 0)
    {
      this.data := data;
      this.from := from;
      this.to := to;
      nextOffset := 0;
      acknowledgedOffset := 0;
    }

    method Acknowledge(offset: u32) returns (r: Result<bool, MapError>)
      requires Valid()
      modifies this`acknowledgedOffset
      ensures Valid()
      ensures match Acknowledged(old(View()), offset)
              case Ok((t, news)) => r == Ok(news) && View() == t
              case Err(e) => r == Err(e) && View() == old(View())
    {
      var mapSize := |data|;
      if offset > mapSize {
        return Err(OffsetBeyondMap(offset, mapSize));
      }
      if offset <= acknowledgedOffset {
        return Ok(false);
      }
      acknowledgedOffset := offset;
      return Ok(true);
    }

    method PendingFrames(crc: Crc) returns (r: Result<seq<Frame>, MapError>)
      requires Valid()
      modifies this`nextOffset
      ensures Valid()
      ensures r == PartFrames(crc, from, to, Sending(old(View())))
      ensures r.Ok? ==> View() == Advanced(old(View()))
    {
      var windowEnd := WindowEnd(acknowledgedOffset);
      var mapSize := |data|;
      var frames: seq<Frame> := [];
      AdvanceKeepsValid(View());
      StillNothing(crc, from, to, Sending(View()));
      while nextOffset < mapSize && nextOffset < windowEnd
        invariant Valid() && nextOffset <= mapSize && windowEnd == WindowEnd(acknowledgedOffset)
        invariant Reached(data, nextOffset, windowEnd) == Reached(data, old(nextOffset), windowEnd)
        invariant PartFrames(crc, from, to, NextParts(data, old(nextOffset), windowEnd))
                  == Followed(frames, PartFrames(crc, from, to, NextParts(data, nextOffset, windowEnd)))
        decreases mapSize - nextOffset
      {
        var start := nextOffset;
        var end := PartEnd(data, start);
        var frame := MapPartFrame(crc, from, to, start, data[start..end]);
        OneMorePart(crc, from, to, data, start, windowEnd, frames);
        if frame.Err? {
          return Err(frame.error);
        }
        frames := frames + [frame.value];
        nextOffset := end;
      }
      assert frames + [] == frames;
      r := Ok(frames);
    }
  }

  /** Frames already produced, followed by what is still to come. */
  function Followed(frames: seq<Frame>, rest: Result<seq<Frame>, MapError>): (r: Result<seq<Frame>, MapError>)
  {
    if rest.Err? then rest else Ok(frames + rest.value)
  }

  lemma StillNothing(crc: Crc, from: u8, to: u8, parts: seq<Part>)
    ensures PartFrames(crc, from, to, parts) == Followed([], PartFrames(crc, from, to, parts))
  {
    hide PartFrames;
    var r := PartFrames(crc, from, to, parts);
    if r.Ok? {
      assert [] + r.value == r.value;
    }
  }

  lemma OneMorePart(crc: Crc, from: u8, to: u8, data: MapData, next: nat, end: nat, frames: seq<Frame>)
    requires next < |data| && next < end
    ensures Reached(data, next, end) == Reached(data, PartEnd(data, next), end)
    ensures var frame := MapPartFrame(crc, from, to, next, data[next..PartEnd(data, next)]);
            Followed(frames, PartFrames(crc, from, to, NextParts(data, next, end))) ==
              if frame.Err? then Err(frame.error)
              else Followed(frames + [frame.value],
                            PartFrames(crc, from, to, NextParts(data, PartEnd(data, next), end)))
  {
    hide MapPartFrame;
    var parts := NextParts(data, next, end);
    var frame := MapPartFrame(crc, from, to, next, data[next..PartEnd(data, next)]);
    var rest := PartFrames(crc, from, to, NextParts(data, PartEnd(data, next), end));
    assert parts[1..] == NextParts(data, PartEnd(data, next), end);
    if frame.Ok? && rest.Ok? {
      assert frames + ([frame.value] + rest.value) == (frames + [frame.value]) + rest.value;
    }
  }

  datatype Stage = AtStatus | AtPreparation | AtDownload | AtVerified

  class MapTransferSession {
    const expectedSize: u32
    const host: u8
    const local: u8
    const crc: Crc
    var stage: Stage
    var transfer: ActiveMapTransfer?

    /** The frames written to Warcraft. */
    var written: seq<Frame>

    ghost predicate Valid()
      reads this, transfer
    {
      stage.AtDownload? ==> transfer != null && transfer.Valid()
    }

    ghost function State(): (state: MapState)
      requires Valid()
      reads this, transfer
    {
      match stage
      case AtStatus => AwaitingStatus
      case AtPreparation => Preparing(host, local)
      case AtDownload => Downloading(transfer.View())
      case AtVerified => Verified
    }

    constructor (expectedSize: u32, host: u8, local: u8, crc: Crc)
      ensures Valid() && State() == AwaitingStatus && written == []
    {
      this.expectedSize := expectedSize;
      this.host := host;
      this.local := local;
      this.crc := crc;
      stage := AtStatus;
      transfer := null;
      written := [];
    }

    method HandleMapSize(frame: Frame) returns (r: Result<bool, MapError>)
      requires Valid()
      modifies this, transfer
      ensures Valid()
      ensures match OnMapSize(old(State()), frame, expectedSize, host, local)
              case Ok(step) => r == Ok(step.ready) && State() == step.state && written == old(written) + step.frames
              case Err(e) => r == Err(e)
    {
      hide DecodeMapSize, ValidTransfer;
      assert written + [] == written;
      var decoded := DecodeMapSize(frame);
      if decoded.Err? {
        return Err(decoded.error);
      }
      var report := decoded.value;
      if report.flag == 1 && report.size == expectedSize {
        var wasVerified := stage.AtVerified?;
        stage := AtVerified;
        return Ok(!wasVerified);
      }
      if report.size > expectedSize {
        return Err(OffsetBeyondMap(report.size, expectedSize));
      }
      if report.flag != 1 && report.flag != 3 {
        return Err(UnsupportedFlag(report.flag));
      }
      match stage {
        case AtStatus =>
          var start := StartDownloadFrame(host);
          if start.Err? {
            return Err(start.error);
          }
          written := written + [start.value];
          stage := AtPreparation;
        case AtPreparation =>
        case AtDownload =>
          if report.flag == 3 {
            var news := transfer.Acknowledge(report.size);
            if news.Err? {
              return Err(news.error);
            }
          }
        case AtVerified =>
          return Err(InconsistentAfterVerification);
      }
      return Ok(false);
    }

    /** The transfer timer: completes a finished preparation, then sends what the window allows. */
    method Advance(prepared: Option<Option<seq<u8>>>, clocks: Clocks) returns (error: Option<MapError>)
      requires Valid()
      modifies this, transfer
      ensures Valid()
      ensures match OnTimer(crc, old(State()), prepared, expectedSize, clocks)
              case Ok(step) => error == None && State() == step.state && written == old(written) + step.frames
              case Err(e) => error == Some(e)
    {
      hide ValidTransfer, PartFrames, Sending, Advanced;
      assert written + [] == written;
      if stage.AtPreparation? {
        if clocks.preparationLate {
          return Some(PreparationTimedOut);
        }
        if prepared.None? {
          return None;
        }
        if prepared.value.None? {
          return Some(PreparationFailed);
        }
        var data := prepared.value.value;
        if |data| != expectedSize {
          return Some(WrongPreparedSize(|data|, expectedSize));
        }
        transfer := new ActiveMapTransfer(data, host, local);
        stage := AtDownload;
      } else if stage.AtDownload? {
        if clocks.transferLate {
          return Some(TransferTimedOut);
        }
        if clocks.stalled {
          return Some(TransferStalled);
        }
      } else {
        return None;
      }
      var frames := transfer.PendingFrames(crc);
      if frames.Err? {
        return Some(frames.error);
      }
      written := written + frames.value;
      return None;
    }
  }
}
