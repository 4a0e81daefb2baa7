/**
 What a report of Warcraft's does to a map session, and that a session in which Warcraft reports exactly what it
 holds gives it the whole file.
 */
module MapProgress {
  import opened Bytes
  import opened Frames
  import opened MapModel

  // Reports.

  /** The frame in which Warcraft reports a flag and a size or offset. */
  function SizeFrame(flag: u8, size: u32): (f: Frame)
  {
    Frame(0x42, [1, 0, 0, 0, flag] + Le(4, size))
  }

  /** A report decodes exactly to the flag and size it was made from. */
  lemma ReportRoundTrip(f: Frame, flag: u8, size: u32)
    ensures DecodeMapSize(f) == Ok(MapSize(flag, size)) <==> f == SizeFrame(flag, size)
  {
    var made := SizeFrame(flag, size);
    assert made.payload[..4] == [1, 0, 0, 0] && made.payload[5..9] == Le(4, size);
    Le32RoundTrip(size);
    Le32RoundTrip(1);
    assert Le(4, 1) == [1, 0, 0, 0];
    if DecodeMapSize(f) == Ok(MapSize(flag, size)) {
      SizeIsLast(f, flag, size);
    }
  }

  lemma SizeIsLast(f: Frame, flag: u8, size: u32)
    requires DecodeMapSize(f) == Ok(MapSize(flag, size))
    ensures f == SizeFrame(flag, size)
  {
    var marker, last := f.payload[..4], f.payload[5..9];
    LeCanonical(marker);
    LeCanonical(last);
    assert FromLe(marker) == 1 && FromLe(last) == size;
    assert marker == Le(4, 1) == [1, 0, 0, 0] && last == Le(4, size);
    assert f.payload == marker + [f.payload[4]] + last;
    assert f.payload == [1, 0, 0, 0, flag] + Le(4, size);
  }

  /** What a report of flag and size must lead to in each state of a session over a file of `expected` bytes. */
  predicate Answered(state: MapState, flag: u8, size: u32, expected: u32, host: u8, local: u8,
                     r: Result<MapStep, MapError>)
  {
    if flag == 1 && size == expected then r == Ok(MapStep(Verified, !state.Verified?, []))
    else if size > expected then r == Err(OffsetBeyondMap(size, expected))
    else if flag !in {1, 3} then r == Err(UnsupportedFlag(flag))
    else
      match state
      case AwaitingStatus =>
        if 1 <= host <= 254
        then r == Ok(MapStep(Preparing(host, local), false, [Frame(0x3F, [1, 0, 0, 0, host])]))
        else r == Err(InvalidPlayerId(host))
      case Preparing(_, _) => r == Ok(MapStep(state, false, []))
      case Downloading(t) =>
        var acknowledged := if flag == 3 && size > t.acknowledged then size else t.acknowledged;
        r == Ok(MapStep(Downloading(t.(acknowledged := acknowledged)), false, []))
      case Verified => r == Err(InconsistentAfterVerification)
  }

  /**
   A report of the whole map verifies; while downloading, flag 3 moves the acknowledged offset to the larger of
   old and reported, and flag 1 with less than the map changes nothing.
   */
  lemma ReportIsAnswered(state: MapState, flag: u8, size: u32, expected: u32, host: u8, local: u8)
    requires state.Downloading? ==> |state.transfer.data| == expected
    ensures Answered(state, flag, size, expected, host, local,
                     OnMapSize(state, SizeFrame(flag, size), expected, host, local))
  {
    ReportRoundTrip(SizeFrame(flag, size), flag, size);
    assert Le(4, MAP_TRANSFER_MARKER) == [1, 0, 0, 0];
    assert [1, 0, 0, 0] + [host] == [1, 0, 0, 0, host];
  }

  /** What is downloaded has the announced size. */
  predicate Sized(m: MapSession, state: MapState)
  {
    state.Downloading? ==> |state.transfer.data| == m.expected
  }

  lemma {:induction false} RunIsSized(m: MapSession, r: MapRun, events: seq<MapEvent>, r': MapRun)
    requires ValidState(r.state) && Sized(m, r.state) && IsRun(m, r, events, r')
    ensures Sized(m, r'.state)
    decreases |events|
  {
    hide DecodeMapSize, PartFrames, NextParts, Reached, ValidTransfer;
    if events != [] {
      RunIsSized(m, Occurs(m, r, events[0]).value, events[1..], r');
    }
  }

  /** The answer to a report at any point of any session that has not failed. */
  lemma ReportsAreAnswered(m: MapSession, events: seq<MapEvent>, r: MapRun, flag: u8, size: u32)
    requires IsRun(m, MapRun(AwaitingStatus, 0, []), events, r)
    ensures Answered(r.state, flag, size, m.expected, m.host, m.local,
                     OnMapSize(r.state, SizeFrame(flag, size), m.expected, m.host, m.local))
  {
    hide OnMapSize, Answered, Occurs;
    RunIsSized(m, MapRun(AwaitingStatus, 0, []), events, r);
    ReportIsAnswered(r.state, flag, size, m.expected, m.host, m.local);
  }

  // Progress.

  const IN_TIME := Clocks(false, false, false)

  lemma {:induction false} PartsAreFramed(crc: Crc, from: u8, to: u8, parts: seq<Part>, end: nat)
    requires ValidPlayerId(from) && ValidPlayerId(to) && GoodParts(parts, end)
    ensures PartFrames(crc, from, to, parts).Ok?
    decreases |parts|
  {
    if parts != [] {
      assert GoodPart(parts[0], end);
      assert forall i | 0 <= i < |parts[1..]| :: parts[1..][i] == parts[i + 1];
      PartsAreFramed(crc, from, to, parts[1..], end);
    }
  }

  lemma WindowOpens(crc: Crc, t: Transfer)
    requires ValidTransfer(t) && ValidPlayerId(t.from) && ValidPlayerId(t.to)
    ensures var r := OnWindow(crc, t); r.Ok? && r.value.state == Downloading(Advanced(t))
  {
    hide PartFrames, Sending, Advanced;
    AdvanceKeepsValid(t);
    PartsAreFramed(crc, t.from, t.to, Sending(t), WindowEnd(t.acknowledged));
  }

  predicate Usable(state: MapState)
  {
    match state
    case Preparing(from, to) => ValidPlayerId(from) && ValidPlayerId(to)
    case Downloading(t) => ValidPlayerId(t.from) && ValidPlayerId(t.to)
    case _ => true
  }

  /** The timer fails a session exactly when a clock has run out or the preparation has come to nothing. */
  lemma TimerFailsWhenLate(crc: Crc, state: MapState, prepared: Option<Option<seq<u8>>>, expected: u32, clocks: Clocks)
    requires ValidState(state) && Usable(state)
    ensures OnTimer(crc, state, prepared, expected, clocks).Err? <==>
              || (state.Preparing? && clocks.preparationLate)
              || (state.Preparing? && prepared == Some(None))
              || (state.Preparing? && prepared.Some? && prepared.value.Some? && |prepared.value.value| != expected)
              || (state.Downloading? && (clocks.transferLate || clocks.stalled))
    ensures var r := OnTimer(crc, state, prepared, expected, clocks);
            match state
            case Preparing(_, _) =>
              if clocks.preparationLate then r == Err(PreparationTimedOut)
              else if prepared.None? then r == Ok(MapStep(state, false, []))
              else if prepared.value.None? then r == Err(PreparationFailed)
              else r.Err? ==> r == Err(WrongPreparedSize(|prepared.value.value|, expected))
            case Downloading(_) =>
              if clocks.transferLate then r == Err(TransferTimedOut) else r.Err? ==> r == Err(TransferStalled)
            case _ => r == Ok(MapStep(state, false, []))
  {
    hide OnWindow, NextParts, Reached;
    if state.Downloading? {
      WindowOpens(crc, state.transfer);
    } else if state.Preparing? && prepared.Some? && prepared.value.Some? && |prepared.value.value| == expected {
      WindowOpens(crc, NewTransfer(prepared.value.value, state.from, state.to, expected).value);
    }
  }

  /** Where one more window takes a transfer that everything sent has been acknowledged of. */
  function Further(size: nat, next: nat): (offset: nat)
  {
    if next + 144200 < size then next + 144200 else size
  }

  /** `n` rounds: Warcraft reports exactly what it holds, and the timer fires in time. */
  function Rounds(size: u32, next: nat, n: nat): (events: seq<MapEvent>)
    requires next <= size
    decreases n
  {
    if n == 0 then []
    else [Report(SizeFrame(3, next)), Timer(None, IN_TIME)] + Rounds(size, Further(size, next), n - 1)
  }

  /** Where `n` windows take it. */
  function Along(size: nat, next: nat, n: nat): (offset: nat)
    requires next <= size
    decreases n
  {
    if n == 0 then next else Along(size, Further(size, next), n - 1)
  }

  lemma {:induction false} WindowsAddUp(size: nat, next: nat, n: nat)
    requires next <= size
    ensures Along(size, next, n) == if next + n * 144200 < size then next + n * 144200 else size
    decreases n
  {
    if n > 0 {
      WindowsAddUp(size, Further(size, next), n - 1);
    }
  }

  predicate InLockstep(m: MapSession, r: MapRun, data: MapData, next: nat)
  {
    && Sane(m, r) && r.state.Downloading? && |data| == m.expected
    && ValidPlayerId(r.state.transfer.from) && ValidPlayerId(r.state.transfer.to)
    && r.state.transfer.data == data
    && r.state.transfer.next == next && r.state.transfer.acknowledged <= next
  }

  /** One round sends a whole window or the rest of the file. */
  lemma OneRoundMore(m: MapSession, r: MapRun, data: MapData, next: nat)
    requires InLockstep(m, r, data, next)
    ensures next <= |data|
    ensures var r1 := Occurs(m, r, Report(SizeFrame(3, next)));
            && r1.Some? && ValidState(r1.value.state)
            && var r2 := Occurs(m, r1.value, Timer(None, IN_TIME));
               r2.Some? && InLockstep(m, r2.value, data, Further(|data|, next))
  {
    hide Assemble, PartsIn, OnMapSize, NextParts, Reached, PartFrames, Sending, Advanced;
    var t := r.state.transfer;
    ReportIsAnswered(r.state, 3, next, m.expected, m.host, m.local);
    ReportIsSane(m, r, SizeFrame(3, next));
    var r1 := Occurs(m, r, Report(SizeFrame(3, next))).value;
    TimerIsSane(m, r1, None, IN_TIME);
    WindowOpens(m.crc, r1.state.transfer);
    WindowReaches(t);
    assert r1.state.transfer == t.(acknowledged := next);
  }

  lemma WindowReaches(t: Transfer)
    requires t.next <= |t.data|
    ensures var t' := Advanced(t.(acknowledged := t.next));
            && t'.next == Further(|t.data|, t.next)
            && t' == t.(acknowledged := t.next, next := t'.next)
  {
    hide Reached, NextParts;
    ReachedExactly(t.data, t.next, MAP_TRANSFER_WINDOW_PARTS);
    ReachedInRange(t.data, t.next, WindowEnd(t.next));
  }

  lemma {:induction false} RoundsRun(m: MapSession, r: MapRun, data: MapData, next: nat, n: nat)
    returns (r': MapRun)
    requires InLockstep(m, r, data, next) && next <= |data|
    ensures IsRun(m, r, Rounds(|data|, next, n), r') && InLockstep(m, r', data, Along(|data|, next, n))
    decreases n
  {
    hide InLockstep, Occurs;
    Sanely(m, r, data, next);
    if n == 0 {
      r' := r;
    } else {
      OneRoundMore(m, r, data, next);
      var r1 := Occurs(m, r, Report(SizeFrame(3, next))).value;
      var r2 := Occurs(m, r1, Timer(None, IN_TIME)).value;
      Sanely(m, r2, data, Further(|data|, next));
      r' := RoundsRun(m, r2, data, Further(|data|, next), n - 1);
      var events := Rounds(|data|, next, n);
      assert events[1..][1..] == Rounds(|data|, Further(|data|, next), n - 1);
      assert IsRun(m, r1, events[1..], r');
    }
  }

  lemma Sanely(m: MapSession, r: MapRun, data: MapData, next: nat)
    requires InLockstep(m, r, data, next)
    ensures ValidState(r.state)
  {
  }

  /** What Warcraft holds of the map. */
  predicate Holds(m: MapSession, r: MapRun, bytes: seq<u8>)
  {
    Assemble([], PartsIn(m.crc, r.frames)) == Some(bytes)
  }

  /**
   A downloading session whose Warcraft reports, with flag 3, exactly the offset it holds, and whose timer fires
   in time, holds the file up to `n` more windows after `n` rounds: all of it if and only if that is enough.
   */
  lemma LockstepSession(m: MapSession, r: MapRun, data: MapData, next: nat, n: nat) returns (r': MapRun)
    requires InLockstep(m, r, data, next) && next <= |data|
    ensures IsRun(m, r, Rounds(|data|, next, n), r') && InLockstep(m, r', data, Along(|data|, next, n))
    ensures Holds(m, r', data) <==> next + n * 144200 >= |data|
    ensures next + n * 144200 < |data| ==> Holds(m, r', data[..next + n * 144200])
  {
    hide IsRun, Assemble, PartsIn;
    r' := RoundsRun(m, r, data, next, n);
    WindowsAddUp(|data|, next, n);
    var at := Along(|data|, next, n);
    assert Assemble([], PartsIn(m.crc, r'.frames)) == Some(data[..at]);
    assert data[..|data|] == data;
    assert at < |data| ==> |data[..at]| < |data|;
  }

  /** From the first report to the last window: the request, the finished preparation, and `n` rounds. */
  function Download(data: MapData, have: u32, n: nat): (events: seq<MapEvent>)
  {
    [Report(SizeFrame(1, have)), Timer(Some(Some(data)), IN_TIME)] + Rounds(|data|, Further(|data|, 0), n)
  }

  lemma DownloadBegins(m: MapSession, data: MapData, have: u32) returns (r1: MapRun, r2: MapRun)
    requires |data| == m.expected && have < m.expected && ValidPlayerId(m.host) && ValidPlayerId(m.local)
    ensures Occurs(m, MapRun(AwaitingStatus, 0, []), Report(SizeFrame(1, have))) == Some(r1)
    ensures ValidState(r1.state) && Occurs(m, r1, Timer(Some(Some(data)), IN_TIME)) == Some(r2)
    ensures InLockstep(m, r2, data, Further(|data|, 0))
  {
    hide Assemble, PartsIn, OnMapSize, NextParts, Reached, PartFrames, Sending, Advanced;
    var r := MapRun(AwaitingStatus, 0, []);
    StartIsSane(m);
    ReportIsAnswered(r.state, 1, have, m.expected, m.host, m.local);
    ReportIsSane(m, r, SizeFrame(1, have));
    r1 := Occurs(m, r, Report(SizeFrame(1, have))).value;
    var t := Transfer(data, m.host, m.local, 0, 0);
    WindowOpens(m.crc, t);
    WindowReaches(t);
    TimerIsSane(m, r1, Some(Some(data)), IN_TIME);
    r2 := Occurs(m, r1, Timer(Some(Some(data)), IN_TIME)).value;
  }

  lemma StartIsSane(m: MapSession)
    ensures Sane(m, MapRun(AwaitingStatus, 0, []))
  {
  }

  /**
   A whole map session: Warcraft asks for the map, the preparation succeeds, and after `n` rounds it holds the file
   if and only if `n + 1` windows suffice; its report of the whole map then makes it ready, once.
   */
  lemma MapSessionCompletes(m: MapSession, data: MapData, have: u32, n: nat) returns (r: MapRun, r': MapRun)
    requires |data| == m.expected && have < m.expected && ValidPlayerId(m.host) && ValidPlayerId(m.local)
    ensures IsRun(m, MapRun(AwaitingStatus, 0, []), Download(data, have, n), r)
    ensures r.state.Downloading? && r.readied == 0 && (Holds(m, r, data) <==> (n + 1) * 144200 >= |data|)
    ensures ValidState(r.state) && IsRun(m, r, [Report(SizeFrame(1, m.expected))], r')
    ensures r'.state == Verified && r'.readied == 1 && r'.frames == r.frames
  {
    hide Occurs, Holds, Rounds, InLockstep;
    var r1, r2 := DownloadBegins(m, data, have);
    Sanely(m, r2, data, Further(|data|, 0));
    r := LockstepSession(m, r2, data, Further(|data|, 0), n);
    var events := Download(data, have, n);
    assert events[1..][1..] == Rounds(|data|, Further(|data|, 0), n);
    assert IsRun(m, r1, events[1..], r);
    r' := WholeMapVerifies(m, r, data, Along(|data|, Further(|data|, 0), n));
  }

  lemma WholeMapVerifies(m: MapSession, r: MapRun, data: MapData, next: nat) returns (r': MapRun)
    requires InLockstep(m, r, data, next)
    ensures ValidState(r.state) && r.state.Downloading? && r.readied == 0
    ensures IsRun(m, r, [Report(SizeFrame(1, m.expected))], r')
    ensures r'.state == Verified && r'.readied == 1 && r'.frames == r.frames
  {
    hide OnMapSize, PartsIn, Assemble;
    ReportIsAnswered(r.state, 1, m.expected, m.expected, m.host, m.local);
    r' := Occurs(m, r, Report(SizeFrame(1, m.expected))).value;
    var events := [Report(SizeFrame(1, m.expected))];
    assert events[1..] == [];
    assert IsRun(m, r', [], r');
  }
}
