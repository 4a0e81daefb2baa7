/**
 What every call of a session is answered in a valid room, and what it then does: acceptance and each refusal,
 told by phase, membership and plain numbers.
 */
module Answers {
  import opened Bytes
  import opened Text
  import opened Frames
  import opened Actions
  import opened Batching
  import opened Rosters
  import opened Consensus
  import opened RoomModel
  import opened RoomInvariant
  import opened Server
  import opened Refinement
  import opened GameFlow
  import opened FirstFrame

  /** The session belongs to a present player. */
  predicate Present(s: Room, p: u8, session: u64)
  {
    p in s.players && s.players[p].session == session
  }

  predicate OthersReady(s: Room, p: u8)
  {
    forall q | q in s.players && q != p :: s.players[q].ready
  }

  predicate OthersLoaded(s: Room, p: u8)
  {
    forall q | q in s.players && q != p :: s.players[q].loaded
  }

  predicate Refuses(s: Room, e: Effect, failure: MembershipError)
  {
    e == Effect(s, [], Failed(failure), Nothing)
  }

  // Joining.

  /** A waiting room with a free seat takes in anybody with a new name, at the least free id, as nobody before. */
  predicate Seats(s: Room, e: Effect, name: string)
  {
    && e.reply.Joined? && e.reply.player !in s.players && e.reply.session == s.nextSession
    && (forall n: u8 | 1 <= n < e.reply.player :: n in s.players) && 1 <= e.reply.player
    && e.room.players ==
         s.players[e.reply.player := ConnectedPlayer(s.nextSession, name, false, false, None, 0, [])]
    && e.room.nextSession == s.nextSession + 1
    && e.room.revision == (if s.revision < U64_MAX then s.revision + 1 else s.revision)
    && e.reply.roster == RosterOf(e.room.revision, Names(s.players)[e.reply.player := name])
    && e.tail == Send(RosterUpdate(e.reply.roster))
    && Phase(e.room) == Waiting
  }

  lemma NewcomerIsSeated(cfg: Config, s: Room, name: string)
    requires cfg.Valid() && Valid(cfg, s) && CanJoin(cfg, s, name)
    ensures var e := Join(cfg, s, name); Seats(s, e, name) && e.sent == []
  {
    hide Valid, Join, Listing, LeastFree;
    JoinOutcome(cfg, s, name);
    LeastFreeIsLeast(s.players.Keys, 1, cfg.maximum);
    var id := LeastFree(s.players.Keys, 1, cfg.maximum).value;
    var newcomer := ConnectedPlayer(s.nextSession, name, false, false, None, 0, []);
    assert Names(s.players[id := newcomer]) == Names(s.players)[id := name];
    WaitingIsOpen(cfg, s);
  }

  lemma WaitingIsOpen(cfg: Config, s: Room)
    requires cfg.Valid() && Valid(cfg, s)
    ensures Phase(s) == Waiting <==> !s.started && !s.countdownActive
    ensures |s.players| <= cfg.maximum
    ensures Phase(s) == Waiting ==> !s.gameEnded && !s.gameplayActive && s.countdownRemaining.None?
  {
    hide GoodSeat, Distinct, Queued, Untouched, Served;
  }

  /** Which refusal a join gets, if any: the phase first, then room, name and session ids. */
  lemma JoinIsAnswered(cfg: Config, s: Room, name: string)
    requires cfg.Valid() && Valid(cfg, s)
    ensures var e := CallEffect(cfg, s, JoinStep(name));
            && e.sent == []
            && (e.reply.Refused? ==> e.room == s && e.tail == Nothing)
            && match Phase(s)
               case Waiting =>
                 if |s.players| == cfg.maximum then e.reply == Refused(Full)
                 else if exists p | p in s.players :: s.players[p].name == name then
                   e.reply == Refused(DuplicatePlayerName)
                 else if s.nextSession == U64_MAX then e.reply == Refused(SessionIdExhausted)
                 else Seats(s, e, name)
               case Countdown(_) => e.reply == Refused(CountingDown)
               case _ => e.reply == Refused(AlreadyStarted)
  {
    hide Seats, Seat, LeastFree, Seated, Queued, Untouched, Served;
    WaitingIsOpen(cfg, s);
    if CanJoin(cfg, s, name) {
      NewcomerIsSeated(cfg, s, name);
    } else if |s.players| < cfg.maximum {
      SeatIsFree(cfg, s);
    }
  }

  // Readiness and starting.

  /** A countdown begins at the full time, under a new generation that its task is told. */
  predicate CountdownBegins(cfg: Config, s: Room, e: Effect)
  {
    && s.countdownGeneration < U64_MAX
    && Phase(e.room) == Countdown(cfg.initialSeconds) && e.sent == [CountdownUpdate(cfg.initialSeconds)]
    && e.tail == SpawnCountdown(s.countdownGeneration + 1)
    && e.room.countdownGeneration == s.countdownGeneration + 1
  }

  /** The last player to become ready starts a full room, or a room in which a start has been asked for. */
  lemma ReadyIsAnswered(cfg: Config, s: Room, p: u8, session: u64)
    requires cfg.Valid() && Valid(cfg, s)
    ensures var e := CallEffect(cfg, s, ReadyStep(p, session));
            if !Present(s, p, session) then Refuses(s, e, UnknownSession)
            else if s.players[p].ready then e == Effect(s, [], Done, Nothing)
            else
              && Phase(s) == Waiting && e.room.players == s.players[p := s.players[p].(ready := true)]
              && if OthersReady(s, p) && (|s.players| == cfg.maximum || (s.manualStart && |s.players| >= 2))
                 then
                   if s.countdownGeneration < U64_MAX then e.reply == Done && CountdownBegins(cfg, s, e)
                   else
                     e == Effect(s.(players := e.room.players), [], Failed(CountdownGenerationExhausted), Nothing)
                 else e == Effect(s.(players := e.room.players), [], Done, Nothing)
  {
    hide Seated, Queued, Untouched, Served;
    if Present(s, p, session) && !s.players[p].ready {
      var players := s.players[p := s.players[p].(ready := true)];
      PeopleCount(s.players, players);
      assert AllReady(players) <==> OthersReady(s, p);
    }
  }

  /** The five outcomes of a request to start, and its two failures. */
  lemma ManualStartIsAnswered(cfg: Config, s: Room, p: u8, session: u64)
    requires cfg.Valid() && Valid(cfg, s)
    ensures var e := CallEffect(cfg, s, ManualStartStep(p, session));
            if !Present(s, p, session) then Refuses(s, e, UnknownSession)
            else
              match Phase(s)
              case Waiting =>
                if |s.players| < 2 then e == Effect(s, [], ManualStart(NotEnoughPlayers), Nothing)
                else if exists q | q in s.players :: !s.players[q].ready then
                  e == Effect(s.(manualStart := true), [], ManualStart(PlayersNotReady), Nothing)
                else if s.countdownGeneration == U64_MAX then Refuses(s, e, CountdownGenerationExhausted)
                else e.reply == ManualStart(Started) && CountdownBegins(cfg, s, e) && e.room.players == s.players
              case Countdown(_) => e == Effect(s, [], ManualStart(AlreadyCountingDown), Nothing)
              case _ => e == Effect(s, [], ManualStart(GameAlreadyStarted), Nothing)
  {
    hide Seated, Queued, Untouched, Served;
  }

  // Loading.

  /** The game is on: a new generation, which its actor is told, and the first number still to come. */
  predicate GameBegins(s: Room, e: Effect)
  {
    && s.gameplayGeneration < U64_MAX && Phase(e.room) == Playing
    && e.tail == SpawnGameplay(s.gameplayGeneration + 1)
    && e.room.gameplayGeneration == s.gameplayGeneration + 1
    && e.room.gameplaySequence == 0 && e.room.pending == []
  }

  /** Of a loading game each player's first report is broadcast, and the last of two or more begins it. */
  lemma LoadedIsAnswered(cfg: Config, s: Room, p: u8, session: u64)
    requires cfg.Valid() && Valid(cfg, s)
    ensures var e := CallEffect(cfg, s, LoadedStep(p, session));
            if !Present(s, p, session) then Refuses(s, e, UnknownSession)
            else if Phase(s) != Loading && Phase(s) != Playing then Refuses(s, e, GameNotStarted)
            else if s.players[p].loaded then e == Effect(s, [], Done, Nothing)
            else
              && Phase(s) == Loading && e.sent == [PlayerLoaded(p)]
              && e.room.players == s.players[p := s.players[p].(loaded := true)]
              && if OthersLoaded(s, p) && |s.players| >= 2 then
                   if s.gameplayGeneration < U64_MAX then e.reply == Done && GameBegins(s, e)
                   else
                     e == Effect(s.(players := e.room.players), e.sent, Failed(GameplayGenerationExhausted), Nothing)
                 else e == Effect(s.(players := e.room.players), e.sent, Done, Nothing)
  {
    hide Seated, Untouched, Served;
    if Present(s, p, session) && !s.players[p].loaded {
      var players := s.players[p := s.players[p].(loaded := true)];
      PeopleCount(s.players, players);
      assert AllLoaded(players) <==> OthersLoaded(s, p);
    }
  }

  // Playing.

  /** Everything an action needs to be accepted. */
  predicate Acceptable(s: Room, p: u8, session: u64, sequence: u64, action: PlayerAction)
  {
    && Phase(s) == Playing && Present(s, p, session) && action.player == p
    && |s.pending| < 512 && ByteCount(s.pending) + 3 + |action.data| <= 512 * 1452
    && sequence == s.players[p].lastSequence + 1
  }

  /** The refusal of an action, the first that applies. */
  function ActionRefusal(s: Room, p: u8, session: u64, sequence: u64, action: PlayerAction): (f: MembershipError)
  {
    if !Present(s, p, session) then UnknownSession
    else if Phase(s) != Playing then GameNotRunning
    else if action.player != p then ActionPlayerMismatch
    else if |s.pending| >= 512 || ByteCount(s.pending) + 3 + |action.data| > 743424 then ActionQueueFull
    else NumberRefusal(s.players[p].lastSequence, sequence)
  }

  function NumberRefusal(last: u64, sequence: u64): (f: MembershipError)
  {
    if last == U64_MAX then GameSequenceExhausted else InvalidGameSequence(last + 1, sequence)
  }

  /**
   An action is queued last, and remembered as accepted, if and only if the game is running, the session is the
   player's, the player is the action's, the queue has room and the number is the next; otherwise nothing
   changes and the first thing that is missing is named.
   */
  lemma ActionIsAnswered(cfg: Config, w: World, p: u8, session: u64, sequence: u64, action: PlayerAction)
    requires cfg.Valid() && Valid(cfg, w.room) && Enabled(w, ActionStep(p, session, sequence, action))
    ensures var step := ActionStep(p, session, sequence, action);
            var s, e, w' := w.room, CallEffect(cfg, w.room, step), Next(cfg, w, step);
            if Acceptable(s, p, session, sequence, action) then
              && e.reply == Done && w'.history.accepted == w.history.accepted + [action]
              && w'.room.pending == s.pending + [action] && w'.log == w.log && w'.tasks == w.tasks
              && w'.room.players == s.players[p := s.players[p].(lastSequence := sequence)]
            else
              && e.reply == Failed(ActionRefusal(s, p, session, sequence, action))
              && w'.history.accepted == w.history.accepted
              && w'.room == s && w'.log == w.log && w'.tasks == w.tasks
  {
    hide Seated, Untouched, Served;
  }

  lemma PlayingFlags(cfg: Config, s: Room)
    requires cfg.Valid() && Valid(cfg, s)
    ensures Phase(s) == Playing <==> s.gameplayActive && !s.gameEnded
  {
    hide Seated, Queued, Untouched, Served;
  }

  /** Everything a checksum needs to be accepted. */
  predicate Countable(s: Room, p: u8, session: u64, sequence: u64)
  {
    && Phase(s) == Playing && Present(s, p, session)
    && |s.players[p].checksums| < 64
    && sequence == s.players[p].lastSequence + 1
  }

  function KeepAliveRefusal(s: Room, p: u8, session: u64, sequence: u64): (f: MembershipError)
  {
    if !Present(s, p, session) then UnknownSession
    else if Phase(s) != Playing then GameNotRunning
    else if |s.players[p].checksums| >= 64 then ChecksumQueueFull
    else NumberRefusal(s.players[p].lastSequence, sequence)
  }

  /** The queues with one more checksum of `p`. */
  function WithReport(s: Room, p: u8, checksum: u32): (q: Queues)
    requires p in s.players
  {
    QueuesOf(s.players)[p := s.players[p].checksums + [checksum]]
  }

  /** Some round that everybody has reported holds two checksums. */
  predicate Differ(q: Queues)
  {
    exists a, b, r | a in q && b in q && 0 <= r < |q[a]| && r < |q[b]| ::
      q[a][r] != q[b][r] && forall p | p in q :: r < |q[p]|
  }

  lemma QueuesWithReport(s: Room, p: u8, sequence: u64, checksum: u32)
    requires p in s.players
    ensures QueuesOf(WithChecksum(WithSequence(s, p, sequence), p, checksum).players) == WithReport(s, p, checksum)
  {
  }

  lemma KeptByDrop(players: Players, rounds: nat)
    requires HasRounds(QueuesOf(players), rounds)
    ensures DropRounds(players, rounds).Keys == players.Keys
    ensures forall p | p in players :: DropRounds(players, rounds)[p].lastSequence == players[p].lastSequence
  {
  }

  lemma DesyncMeans(q: Queues)
    ensures Judge(q).desync <==> Differ(q)
  {
    hide Judge, IsVerdict;
    JudgeMeaning(q);
    if Judge(q).desync {
      var r: nat :| r < CompleteRounds(q) && Disagree(q, r);
      var a, b :| a in q && b in q && q[a][r] != q[b][r];
      assert r < |q[a]| && r < |q[b]|;
    }
    if Differ(q) {
      var a, b, r :| a in q && b in q && 0 <= r < |q[a]| && r < |q[b]|
                     && q[a][r] != q[b][r] && forall p | p in q :: r < |q[p]|;
      var shortest :| shortest in q && |q[shortest]| == CompleteRounds(q);
      assert r < |q[shortest]|;
      assert Disagree(q, r);
    }
  }

  lemma KeepAliveEffect(cfg: Config, s: Room, p: u8, session: u64, sequence: u64, checksum: u32)
    requires cfg.Valid() && Valid(cfg, s)
    ensures var e := SubmitKeepAlive(s, p, session, sequence, checksum);
            && e.sent == []
            && if Countable(s, p, session, sequence) then
                 && e.reply == Done && e.room.players.Keys == s.players.Keys
                 && e.room.players[p].lastSequence == sequence
                 && e.tail == if Differ(WithReport(s, p, checksum)) then EndGame(Desync) else Nothing
               else e.reply == Failed(KeepAliveRefusal(s, p, session, sequence)) && e.room == s && e.tail == Nothing
  {
    hide Judge, DropRounds, Differ, QueuesOf, Valid;
    PlayingFlags(cfg, s);
    if Countable(s, p, session, sequence) {
      var s' := WithChecksum(WithSequence(s, p, sequence), p, checksum);
      QueuesWithReport(s, p, sequence, checksum);
      DesyncMeans(WithReport(s, p, checksum));
      KeptByDrop(s'.players, Judge(QueuesOf(s'.players)).rounds);
    }
  }

  /**
   A checksum is taken exactly under the analogous conditions. It leads to the end of the game as a desync, by a
   task of its own, if and only if some round everybody has reported by now holds two checksums.
   */
  lemma KeepAliveIsAnswered(cfg: Config, w: World, p: u8, session: u64, sequence: u64, checksum: u32)
    requires cfg.Valid() && Valid(cfg, w.room) && Enabled(w, KeepAliveStep(p, session, sequence, checksum))
    ensures var step := KeepAliveStep(p, session, sequence, checksum);
            var s, e, w' := w.room, CallEffect(cfg, w.room, step), Next(cfg, w, step);
            && w'.log == w.log
            && if Countable(s, p, session, sequence) then
                 && e.reply == Done && w'.room.players.Keys == s.players.Keys
                 && w'.room.players[p].lastSequence == sequence
                 && w'.tasks == w.tasks + if Differ(WithReport(s, p, checksum)) then [Task(EndGameJob(Desync), false)]
                                          else []
               else
                 && e.reply == Failed(KeepAliveRefusal(s, p, session, sequence))
                 && w'.room == s && w'.tasks == w.tasks
  {
    hide Valid, Differ, SubmitKeepAlive, Remember, Countable, KeepAliveRefusal;
    KeepAliveEffect(cfg, w.room, p, session, sequence, checksum);
    assert w.tasks + [] == w.tasks && w.log + [] == w.log;
  }

  // Chat.

  /** The player's last relayed message was this one, at most a quarter of a second ago. */
  predicate Repeats(c: ConnectedPlayer, message: string, now: nat)
  {
    c.lastChat.Some? && c.lastChat.value.message == message && now <= c.lastChat.value.receivedAt + 250
  }

  /** Chat is owed to everybody unless it repeats, and what was relayed is what the next message is compared with. */
  lemma ChatIsAnswered(cfg: Config, s: Room, p: u8, session: u64, message: string, now: nat)
    ensures var e := CallEffect(cfg, s, ChatStep(p, session, message, now));
            if !Present(s, p, session) then Refuses(s, e, UnknownSession)
            else if Repeats(s.players[p], message, now) then e == Effect(s, [], Relayed(false), Nothing)
            else
              && e == Effect(e.room, [], Relayed(true), Send(Chat(p, message)))
              && e.room.players[p].lastChat == Some(RecentChat(message, now))
              && e.room == s.(players := s.players[p := s.players[p].(lastChat := e.room.players[p].lastChat)])
  {
  }

  // Leaving.

  /** The next number, unless there is none. */
  function OneMore(n: u64): (next: u64)
  {
    if n < 0xFFFF_FFFF_FFFF_FFFF then n + 1 else n
  }

  /** What is broadcast about a departure in each phase. */
  function Farewell(s: Room, p: u8, reason: LeaveReason): (sent: seq<Update>)
  {
    var roster := RosterOf(OneMore(s.revision), Names(s.players - {p}));
    match Phase(s)
    case Waiting => [RosterUpdate(roster)]
    case Countdown(_) => [RosterUpdate(roster), CountdownCancelled]
    case _ => [PlayerLeft(p, reason, roster)]
  }

  /** The departure leaves a loading game of two or more players with nobody to wait for. */
  predicate Unblocks(s: Room, p: u8)
  {
    Phase(s) == Loading && |s.players - {p}| >= 2 && forall q | q in s.players - {p} :: s.players[q].loaded
  }

  function PhaseAfter(s: Room, p: u8): (phase: LobbyPhase)
  {
    if s.players - {p} == map[] then Waiting
    else
      match Phase(s)
      case Countdown(_) => Waiting
      case Loading => if Unblocks(s, p) && s.gameplayGeneration < U64_MAX then Playing else Loading
      case other => other
  }

  function TailAfter(s: Room, p: u8): (tail: Tail)
  {
    if s.players - {p} == map[] then Nothing
    else if Phase(s) in {Loading, Playing, Ended} && |s.players - {p}| == 1 then
      SpawnLastPlayerTimer(s.gameplayGeneration)
    else if Unblocks(s, p) && s.gameplayGeneration < U64_MAX then SpawnGameplay(s.gameplayGeneration + 1)
    else Nothing
  }

  /** The player is gone, everybody else is as before, and the room does what its departure calls for. */
  predicate Left(s: Room, p: u8, e: Effect)
  {
    && e.room.players == s.players - {p} && e.room.revision == OneMore(s.revision)
    && Phase(e.room) == PhaseAfter(s, p) && e.tail == TailAfter(s, p)
    && e.reply == if Unblocks(s, p) && s.gameplayGeneration == U64_MAX then Failed(GameplayGenerationExhausted)
                  else Done
  }

  lemma UnblocksMeans(cfg: Config, s: Room, p: u8)
    requires cfg.Valid() && Valid(cfg, s) && p in s.players
    ensures CanBeginGameplay(Without(s, p)) <==> Unblocks(s, p)
    ensures s.players - {p} == map[] <==> |s.players - {p}| == 0
  {
    hide Seated, Queued, Untouched, Served;
  }

  lemma RemovalIsBroadcast(cfg: Config, s: Room, p: u8, reason: LeaveReason)
    requires cfg.Valid() && Valid(cfg, s) && p in s.players
    ensures Remove(s, p, reason).sent == Farewell(s, p, reason)
  {
    hide Seated, Queued, Untouched, Served, Listing, BeginGameplayIfReady, AllReady, AllLoaded;
  }

  lemma RemovalIsAnswered(cfg: Config, s: Room, p: u8, reason: LeaveReason)
    requires cfg.Valid() && Valid(cfg, s) && p in s.players
    ensures Left(s, p, Remove(s, p, reason))
  {
    hide Seated, Queued, Untouched, Served, DepartureUpdates, CanBeginGameplay, Unblocks, AllReady, AllLoaded;
    UnblocksMeans(cfg, s, p);
    UnblockedIsLoading(s, p);
  }

  lemma UnblockedIsLoading(s: Room, p: u8)
    ensures Unblocks(s, p) ==> Phase(s) == Loading && |s.players - {p}| >= 2
  {
  }

  /** What has to be published before a departure. */
  function Waiters(s: Room): (actions: seq<PlayerAction>)
  {
    if Phase(s) == Playing then s.pending else []
  }

  /** The frame numbers left do not suffice for what has to be published. */
  predicate NumbersRunOut(cfg: Config, s: Room)
    requires ValidActions(Waiters(s))
  {
    TickFramesCorrect(cfg.crc, 0, Waiters(s));
    Waiters(s) != [] && s.gameplaySequence + |TickFrames(cfg.crc, 0, Waiters(s)).value| > U64_MAX
  }

  /** Frames that carry exactly what had to be published, and no game time. */
  predicate Flushes(cfg: Config, s: Room, frames: seq<Update>)
  {
    && (forall i | 0 <= i < |frames| :: frames[i].GameFrame?)
    && GameActions(cfg.crc, frames) == Waiters(s) && GameTime(cfg.crc, frames) == 0
  }

  lemma FlushIsAnswered(cfg: Config, s: Room)
    requires cfg.Valid() && Valid(cfg, s)
    ensures ValidActions(Waiters(s))
    ensures var flushed := Flushed(cfg, s);
            && (flushed.failure == if NumbersRunOut(cfg, s) then Some(GameplaySequenceExhausted) else None)
            && flushed.room == s.(pending := flushed.room.pending, pendingBytes := flushed.room.pendingBytes,
                                  gameplaySequence := flushed.room.gameplaySequence)
            && Valid(cfg, flushed.room) && Phase(flushed.room) == Phase(s)
            && (forall i | 0 <= i < |flushed.sent| :: flushed.sent[i].GameFrame?)
            && (flushed.failure.None? ==> Flushes(cfg, s, flushed.sent))
  {
    hide Seated, Untouched, Served, TickFrames, Numbered, GameActions, GameTime;
    PlayingFlags(cfg, s);
    NothingPublished(cfg.crc);
    if s.gameplayActive && s.pending != [] {
      TickFramesCorrect(cfg.crc, 0, s.pending);
      PublishKeepsValid(cfg, s, 0);
      PublishGrowth(cfg, s, 0, []);
      PublishedAreFrames(cfg, s, 0);
      NumberedCount(TickFrames(cfg.crc, 0, s.pending).value, s.gameplaySequence);
      assert [] + PublishPending(cfg, s, 0).sent == PublishPending(cfg, s, 0).sent;
    }
  }

  lemma NothingPublished(crc: Crc)
    ensures GameActions(crc, []) == [] && GameTime(crc, []) == 0
  {
  }

  /** Numbering stops short exactly when the numbers run out. */
  lemma {:induction false} NumberedCount(frames: seq<Frame>, last: u64)
    ensures |Numbered(frames, last)| == if last + |frames| <= U64_MAX then |frames| else U64_MAX - last
  {
    if frames != [] && last < U64_MAX {
      NumberedCount(frames[1..], last + 1);
    }
  }

  /**
   A departure always takes effect, after whatever is pending has been published without game time, and is
   broadcast as the phase demands; unless the frame numbers run out first, and then the player stays.
   */
  lemma LeaveIsAnswered(cfg: Config, s: Room, p: u8, session: u64, reason: LeaveReason)
    requires cfg.Valid() && Valid(cfg, s)
    ensures ValidActions(Waiters(s))
    ensures var e := CallEffect(cfg, s, LeaveStep(p, session, reason));
            if !Present(s, p, session) then e == Effect(s, [], Done, Nothing)
            else if NumbersRunOut(cfg, s) then
              e.reply == Failed(GameplaySequenceExhausted) && e.room.players == s.players && e.tail == Nothing
              && Phase(e.room) == Phase(s) && forall i | 0 <= i < |e.sent| :: e.sent[i].GameFrame?
            else
              && Left(s, p, e)
              && exists frames :: Flushes(cfg, s, frames) && e.sent == frames + Farewell(s, p, reason)
  {
    hide Valid, Remove, Leave, Flushed, NumbersRunOut, Left, Farewell, Flushes;
    FlushIsAnswered(cfg, s);
    if Present(s, p, session) {
      var flushed := Flushed(cfg, s);
      LeaveParts(cfg, s, p, session, reason);
      if flushed.failure.None? {
        var removed := Remove(flushed.room, p, reason);
        RemovalIsAnswered(cfg, flushed.room, p, reason);
        RemovalIsBroadcast(cfg, flushed.room, p, reason);
        SameFarewell(s, flushed.room, p, reason, removed, CallEffect(cfg, s, LeaveStep(p, session, reason)));
        assert CallEffect(cfg, s, LeaveStep(p, session, reason)).sent == flushed.sent + Farewell(s, p, reason);
      }
    } else {
      LeaveByStranger(cfg, s, p, session, reason);
    }
  }

  lemma SameFarewell(s: Room, s': Room, p: u8, reason: LeaveReason, e: Effect, e': Effect)
    requires s'.players == s.players && s'.revision == s.revision && Phase(s') == Phase(s)
    requires s'.gameplayGeneration == s.gameplayGeneration
    requires Left(s', p, e) && e' == e.(sent := e'.sent)
    ensures Farewell(s', p, reason) == Farewell(s, p, reason) && Left(s, p, e')
  {
    hide Phase, Listing;
  }
}
