/**
 The state behind the lobby room's lock and what every critical section does to it, as functions
 on values. `LobbyRoom` implements these section by section; the run-level theorems speak of them.
 */
module RoomModel {
  import opened Bytes
  import opened Frames
  import opened Actions
  import opened Batching
  import opened Rosters
  import opened Consensus

  const MINIMUM_PLAYERS := 2
  const MAX_PENDING_ACTIONS := 512
  const MAX_PENDING_ACTION_BYTES := 512 * 1452
  const MAX_PENDING_CHECKSUMS := 64
  const CHAT_DUPLICATE_WINDOW := 250

  datatype LeaveReason = Disconnect | Lost | LostBuildings | Won | Draw | Observer | Lobby

  datatype EndReason = LastPlayerStanding | Desync | EmptyLobby | ProtocolError

  /** What the room broadcasts. */
  datatype Update =
    | RosterUpdate(roster: Roster)
    | CountdownUpdate(remaining: u8)
    | CountdownCancelled
    | Chat(from: u8, message: string)
    | Start
    | PlayerLoaded(player: u8)
    | PlayerLeft(player: u8, reason: LeaveReason, roster: Roster)
    | GameFrame(sequence: u64, frame: seq<u8>)
    | GameEnded(cause: EndReason)

  datatype Config = Config(maximum: u8, initialSeconds: u8, stepSeconds: u8, incrementMs: u16, crc: Crc)
  {
    predicate Valid()
    {
      && maximum <= MAX_WARCRAFT_PLAYERS - 1
      && initialSeconds > 0 && stepSeconds > 0 && initialSeconds % stepSeconds == 0
    }
  }

  datatype RecentChat = RecentChat(message: string, receivedAt: nat)

  datatype ConnectedPlayer = ConnectedPlayer(
    session: u64,
    name: string,
    ready: bool,
    loaded: bool,
    lastChat: Option<RecentChat>,
    lastSequence: u64,
    checksums: seq<u32>)

  type Players = map<u8, ConnectedPlayer>

  datatype Room = Room(
    revision: u64,
    nextSession: u64,
    players: Players,
    countdownGeneration: u64,
    countdownActive: bool,
    countdownRemaining: Option<u8>,
    manualStart: bool,
    started: bool,
    gameplayActive: bool,
    gameEnded: bool,
    gameplayGeneration: u64,
    gameplaySequence: u64,
    pending: seq<PlayerAction>,
    pendingBytes: nat)
  {
    function Roster(): (roster: Roster)
    {
      RosterOf(revision, Names(players))
    }
  }

  datatype JoinError = Full | AlreadyStarted | CountingDown | DuplicatePlayerName | SessionIdExhausted

  datatype MembershipError =
    | UnknownSession
    | GameNotStarted
    | GameNotRunning
    | ActionPlayerMismatch
    | InvalidGameSequence(expected: u64, actual: u64)
    | GameSequenceExhausted
    | ActionQueueFull
    | ChecksumQueueFull
    | GameplayGenerationExhausted
    | GameplaySequenceExhausted
    | GameplayFrameEncoding
    | CountdownGenerationExhausted

  datatype ManualStartOutcome = Started | AlreadyCountingDown | GameAlreadyStarted | NotEnoughPlayers | PlayersNotReady

  datatype Reply =
    | Done
    | Joined(player: u8, session: u64, roster: Roster)
    | Refused(refusal: JoinError)
    | Failed(failure: MembershipError)
    | Relayed(sent: bool)
    | ManualStart(outcome: ManualStartOutcome)

  /** What the caller still has to do once the lock is released. */
  datatype Tail =
    | Nothing
    | Send(update: Update)
    | EndGame(cause: EndReason)
    | SpawnCountdown(generation: u64)
    | SpawnGameplay(generation: u64)
    | SpawnLastPlayerTimer(generation: u64)

  datatype Effect = Effect(room: Room, sent: seq<Update>, reply: Reply, tail: Tail)
  {
    /** The same effect seen on a channel that already carried `before`. */
    function OnChannel(before: seq<Update>): (e: Effect)
    {
      this.(sent := before + sent)
    }
  }

  function FreshRoom(revision: u64): (s: Room)
  {
    Room(revision, 1, map[], 0, false, None, false, false, false, false, 0, 0, [], 0)
  }

  function Names(players: Players): (names: map<u8, string>)
    ensures names.Keys == players.Keys
  {
    map p | p in players :: players[p].name
  }

  predicate AllReady(players: Players)
  {
    forall p | p in players :: players[p].ready
  }

  predicate AllLoaded(players: Players)
  {
    forall p | p in players :: players[p].loaded
  }

  predicate HasSession(players: Players, p: u8, session: u64)
  {
    p in players && players[p].session == session
  }

  function QueuesOf(players: Players): (q: Queues)
  {
    map p | p in players :: players[p].checksums
  }

  function DropRounds(players: Players, rounds: nat): (rest: Players)
    requires HasRounds(QueuesOf(players), rounds)
  {
    map p | p in players ::
      assert QueuesOf(players)[p] == players[p].checksums;
      players[p].(checksums := players[p].checksums[rounds..])
  }

  /** Every player has reported a checksum for the current round. */
  predicate AllReported(players: Players)
  {
    forall p | p in players :: players[p].checksums != []
  }

  predicate FrontsDiffer(players: Players, expected: u32)
    requires AllReported(players)
  {
    exists p | p in players :: players[p].checksums[0] != expected
  }

  function PopFronts(players: Players): (rest: Players)
    requires AllReported(players)
  {
    map p | p in players :: players[p].(checksums := players[p].checksums[1..])
  }

  /** The smallest id in `candidate..=maximum` that is not taken. */
  function LeastFree(taken: set<u8>, candidate: nat, maximum: u8): (id: Option<u8>)
    requires candidate <= maximum + 1
    decreases maximum + 1 - candidate
  {
    if candidate > maximum then None
    else if candidate !in taken then Some(candidate)
    else LeastFree(taken, candidate + 1, maximum)
  }

  predicate CanStartAutomatically(s: Room, maximum: u8)
  {
    !s.started && !s.countdownActive && |s.players| == maximum && AllReady(s.players)
  }

  predicate CanStartOnRequest(s: Room)
  {
    && s.manualStart && !s.started && !s.countdownActive
    && |s.players| >= MINIMUM_PLAYERS && AllReady(s.players)
  }

  predicate CountdownMatches(s: Room, generation: u64)
  {
    s.countdownActive && s.countdownGeneration == generation && AllReady(s.players) && !s.started
  }

  predicate GameplayMatches(s: Room, generation: u64)
  {
    s.gameplayActive && !s.gameEnded && s.gameplayGeneration == generation && s.players != map[]
  }

  function ResetGame(s: Room): (s': Room)
  {
    s.(countdownActive := false, countdownRemaining := None, manualStart := false, started := false,
       gameplayActive := false, gameEnded := false,
       gameplayGeneration := SaturatingIncrement(s.gameplayGeneration),
       gameplaySequence := 0, pending := [], pendingBytes := 0)
  }

  function BeginCountdown(cfg: Config, s: Room): (e: Effect)
  {
    if s.countdownGeneration == U64_MAX then Effect(s, [], Failed(CountdownGenerationExhausted), Nothing)
    else
      var generation := s.countdownGeneration + 1;
      Effect(s.(countdownGeneration := generation, countdownActive := true,
                countdownRemaining := Some(cfg.initialSeconds), manualStart := false),
             [CountdownUpdate(cfg.initialSeconds)], Done, SpawnCountdown(generation))
  }

  predicate CanBeginGameplay(s: Room)
  {
    && s.started && !s.gameplayActive && !s.gameEnded
    && |s.players| >= MINIMUM_PLAYERS && AllLoaded(s.players)
  }

  function BeginGameplayIfReady(s: Room): (e: Effect)
  {
    if !CanBeginGameplay(s) then Effect(s, [], Done, Nothing)
    else if s.gameplayGeneration == U64_MAX then Effect(s, [], Failed(GameplayGenerationExhausted), Nothing)
    else
      var generation := s.gameplayGeneration + 1;
      Effect(s.(gameplayGeneration := generation, gameplayActive := true, gameplaySequence := 0),
             [], Done, SpawnGameplay(generation))
  }

  /** The numbered broadcasts of a list of frames; numbering stops at the ceiling. */
  function Numbered(frames: seq<Frame>, last: u64): (updates: seq<Update>)
    ensures |updates| <= |frames|
  {
    if frames == [] || last == U64_MAX then []
    else [GameFrame(last + 1, ToBytes(frames[0]))] + Numbered(frames[1..], last + 1)
  }

  datatype Published = Published(room: Room, sent: seq<Update>, failure: Option<MembershipError>)

  function PublishPending(cfg: Config, s: Room, incrementMs: u16): (r: Published)
  {
    var drained := s.(pending := [], pendingBytes := 0);
    var frames := TickFrames(cfg.crc, incrementMs, s.pending);
    if frames.Err? then Published(drained, [], Some(GameplayFrameEncoding))
    else
      var sent := Numbered(frames.value, s.gameplaySequence);
      NumberedFits(frames.value, s.gameplaySequence);
      Published(drained.(gameplaySequence := s.gameplaySequence + |sent|), sent,
                if |sent| < |frames.value| then Some(GameplaySequenceExhausted) else None)
  }

  lemma {:induction false} NumberedFits(frames: seq<Frame>, last: u64)
    ensures last + |Numbered(frames, last)| <= U64_MAX
    ensures |Numbered(frames, last)| < |frames| ==> last + |Numbered(frames, last)| == U64_MAX
  {
    if frames != [] && last < U64_MAX {
      NumberedFits(frames[1..], last + 1);
    }
  }

  /** The room with a newcomer in seat `id`. */
  function Seat(s: Room, id: u8, name: string): (s': Room)
    requires s.nextSession < U64_MAX
  {
    s.(nextSession := s.nextSession + 1,
       players := s.players[id := ConnectedPlayer(s.nextSession, name, false, false, None, 0, [])],
       revision := SaturatingIncrement(s.revision))
  }

  function Join(cfg: Config, s: Room, name: string): (e: Effect)
  {
    if s.started then Effect(s, [], Refused(AlreadyStarted), Nothing)
    else if s.countdownActive then Effect(s, [], Refused(CountingDown), Nothing)
    else if |s.players| >= cfg.maximum then Effect(s, [], Refused(Full), Nothing)
    else if exists p | p in s.players :: s.players[p].name == name then
      Effect(s, [], Refused(DuplicatePlayerName), Nothing)
    else
      var id := LeastFree(s.players.Keys, 1, cfg.maximum);
      if id.None? then Effect(s, [], Refused(Full), Nothing)
      else if s.nextSession == U64_MAX then Effect(s, [], Refused(SessionIdExhausted), Nothing)
      else
        var s' := Seat(s, id.value, name);
        Effect(s', [], Joined(id.value, s.nextSession, s'.Roster()), Send(RosterUpdate(s'.Roster())))
  }

  function MarkReady(cfg: Config, s: Room, p: u8, session: u64): (e: Effect)
  {
    if !HasSession(s.players, p, session) then Effect(s, [], Failed(UnknownSession), Nothing)
    else if s.players[p].ready then Effect(s, [], Done, Nothing)
    else
      var s' := s.(players := s.players[p := s.players[p].(ready := true)]);
      if !CanStartAutomatically(s', cfg.maximum) && !CanStartOnRequest(s') then Effect(s', [], Done, Nothing)
      else BeginCountdown(cfg, s')
  }

  function MarkLoaded(s: Room, p: u8, session: u64): (e: Effect)
  {
    if !HasSession(s.players, p, session) then Effect(s, [], Failed(UnknownSession), Nothing)
    else if !s.started || s.gameEnded then Effect(s, [], Failed(GameNotStarted), Nothing)
    else if s.players[p].loaded then Effect(s, [], Done, Nothing)
    else
      var s' := s.(players := s.players[p := s.players[p].(loaded := true)]);
      var begun := BeginGameplayIfReady(s');
      Effect(begun.room, [PlayerLoaded(p)], begun.reply, begun.tail)
  }

  /** The error of an unexpected sequence number from a present player. */
  function SequenceError(player: ConnectedPlayer, sequence: u64): (e: Option<MembershipError>)
  {
    if player.lastSequence == U64_MAX then Some(GameSequenceExhausted)
    else if sequence != player.lastSequence + 1 then Some(InvalidGameSequence(player.lastSequence + 1, sequence))
    else None
  }

  function WithSequence(s: Room, p: u8, sequence: u64): (s': Room)
    requires p in s.players
  {
    s.(players := s.players[p := s.players[p].(lastSequence := sequence)])
  }

  function WithChecksum(s: Room, p: u8, checksum: u32): (s': Room)
    requires p in s.players
  {
    s.(players := s.players[p := s.players[p].(checksums := s.players[p].checksums + [checksum])])
  }

  function SubmitAction(s: Room, p: u8, session: u64, sequence: u64, action: PlayerAction): (e: Effect)
  {
    if !HasSession(s.players, p, session) then Effect(s, [], Failed(UnknownSession), Nothing)
    else if !s.gameplayActive || s.gameEnded then Effect(s, [], Failed(GameNotRunning), Nothing)
    else if action.player != p then Effect(s, [], Failed(ActionPlayerMismatch), Nothing)
    else if |s.pending| >= MAX_PENDING_ACTIONS
            || s.pendingBytes + RecordLength(action) > MAX_PENDING_ACTION_BYTES then
      Effect(s, [], Failed(ActionQueueFull), Nothing)
    else
      var error := SequenceError(s.players[p], sequence);
      if error.Some? then Effect(s, [], Failed(error.value), Nothing)
      else
        Effect(WithSequence(s, p, sequence).(pending := s.pending + [action],
                                             pendingBytes := s.pendingBytes + RecordLength(action)),
               [], Done, Nothing)
  }

  ghost function SubmitKeepAlive(s: Room, p: u8, session: u64, sequence: u64, checksum: u32): (e: Effect)
  {
    if !HasSession(s.players, p, session) then Effect(s, [], Failed(UnknownSession), Nothing)
    else if !s.gameplayActive || s.gameEnded then Effect(s, [], Failed(GameNotRunning), Nothing)
    else if |s.players[p].checksums| >= MAX_PENDING_CHECKSUMS then Effect(s, [], Failed(ChecksumQueueFull), Nothing)
    else
      var error := SequenceError(s.players[p], sequence);
      if error.Some? then Effect(s, [], Failed(error.value), Nothing)
      else
        var s' := WithChecksum(WithSequence(s, p, sequence), p, checksum);
        var verdict := Judge(QueuesOf(s'.players));
        Effect(s'.(players := DropRounds(s'.players, verdict.rounds)), [], Done,
               if verdict.desync then EndGame(Desync) else Nothing)
  }

  predicate IsDuplicateChat(player: ConnectedPlayer, message: string, now: nat)
  {
    && player.lastChat.Some?
    && player.lastChat.value.message == message
    && now - player.lastChat.value.receivedAt <= CHAT_DUPLICATE_WINDOW
  }

  function PublishChat(s: Room, p: u8, session: u64, message: string, now: nat): (e: Effect)
  {
    if !HasSession(s.players, p, session) then Effect(s, [], Failed(UnknownSession), Nothing)
    else if IsDuplicateChat(s.players[p], message, now) then Effect(s, [], Relayed(false), Nothing)
    else
      Effect(s.(players := s.players[p := s.players[p].(lastChat := Some(RecentChat(message, now)))]), [],
             Relayed(true), Send(Chat(p, message)))
  }

  function RequestManualStart(cfg: Config, s: Room, p: u8, session: u64): (e: Effect)
  {
    if !HasSession(s.players, p, session) then Effect(s, [], Failed(UnknownSession), Nothing)
    else if s.started then Effect(s, [], ManualStart(GameAlreadyStarted), Nothing)
    else if s.countdownActive then Effect(s, [], ManualStart(AlreadyCountingDown), Nothing)
    else if |s.players| < MINIMUM_PLAYERS then Effect(s, [], ManualStart(NotEnoughPlayers), Nothing)
    else if !AllReady(s.players) then Effect(s.(manualStart := true), [], ManualStart(PlayersNotReady), Nothing)
    else
      var begun := BeginCountdown(cfg, s);
      if begun.reply.Failed? then begun else begun.(reply := ManualStart(Started))
  }

  function Without(s: Room, p: u8): (s': Room)
  {
    s.(players := s.players - {p}, revision := SaturatingIncrement(s.revision),
       countdownActive := false, countdownRemaining := None, manualStart := false)
  }

  function DepartureUpdates(s: Room, p: u8, reason: LeaveReason): (sent: seq<Update>)
  {
    var roster := Without(s, p).Roster();
    if s.started then [PlayerLeft(p, reason, roster)]
    else if s.countdownActive then [RosterUpdate(roster), CountdownCancelled]
    else [RosterUpdate(roster)]
  }

  /** The part of `Leave` after the pending actions of a running game have been flushed. */
  function Remove(s: Room, p: u8, reason: LeaveReason): (e: Effect)
  {
    var s' := Without(s, p);
    var sent := DepartureUpdates(s, p, reason);
    if s'.players == map[] then Effect(ResetGame(s'), sent, Done, Nothing)
    else if s.started && |s'.players| == 1 then Effect(s', sent, Done, SpawnLastPlayerTimer(s'.gameplayGeneration))
    else
      var begun := BeginGameplayIfReady(s');
      Effect(begun.room, sent, begun.reply, begun.tail)
  }

  function Leave(cfg: Config, s: Room, p: u8, session: u64, reason: LeaveReason): (e: Effect)
  {
    if !HasSession(s.players, p, session) then Effect(s, [], Done, Nothing)
    else if s.gameplayActive && s.pending != [] then
      var flushed := PublishPending(cfg, s, 0);
      if flushed.failure.Some? then Effect(flushed.room, flushed.sent, Failed(flushed.failure.value), Nothing)
      else
        var removed := Remove(flushed.room, p, reason);
        removed.(sent := flushed.sent + removed.sent)
    else Remove(s, p, reason)
  }

  function EndGameNow(s: Room, cause: EndReason): (e: Effect)
  {
    if !s.started || s.gameEnded then Effect(s, [], Done, Nothing)
    else if s.players == map[] then Effect(ResetGame(s), [], Done, Nothing)
    else
      Effect(s.(gameplayActive := false, gameEnded := true,
                gameplayGeneration := SaturatingIncrement(s.gameplayGeneration),
                pending := [], pendingBytes := 0), [GameEnded(cause)], Done, Nothing)
  }

  datatype TickResult = Continue | Stop | TickFailed(failure: MembershipError)

  /** One wake-up of the gameplay actor. */
  function GameplayTick(cfg: Config, s: Room, generation: u64): (r: (Room, seq<Update>, TickResult))
  {
    if !GameplayMatches(s, generation) then (s, [], Stop)
    else
      var published := PublishPending(cfg, s, cfg.incrementMs);
      (published.room, published.sent,
       if published.failure.Some? then TickFailed(published.failure.value) else Continue)
  }

  /** One wake-up of the countdown task before its last step. */
  function CountdownTick(s: Room, generation: u64, remaining: u8): (r: (Room, seq<Update>, bool))
  {
    if !CountdownMatches(s, generation) then (s, [], false)
    else (s.(countdownRemaining := Some(remaining)), [CountdownUpdate(remaining)], true)
  }

  /** The last wake-up of the countdown task. */
  function FinishCountdown(s: Room, generation: u64): (r: (Room, seq<Update>))
  {
    if !CountdownMatches(s, generation) then (s, [])
    else (s.(countdownActive := false, countdownRemaining := None, started := true), [Start])
  }

  predicate LonePlayer(s: Room, generation: u64)
  {
    s.started && !s.gameEnded && |s.players| == 1 && s.gameplayGeneration == generation
  }

  datatype LobbyPhase = Waiting | Countdown(remaining: u8) | Loading | Playing | Ended

  function Phase(s: Room): (phase: LobbyPhase)
  {
    if s.gameEnded then Ended
    else if s.gameplayActive then Playing
    else if s.started then Loading
    else if s.countdownRemaining.Some? then Countdown(s.countdownRemaining.value)
    else Waiting
  }
}
