/** What every critical section keeps true of the room's record. */
module RoomInvariant {
  import opened Bytes
  import opened Text
  import opened Frames
  import opened Actions
  import opened Rosters
  import opened Consensus
  import opened RoomModel

  predicate GoodSeat(cfg: Config, s: Room, p: u8)
    requires p in s.players
  {
    && 1 <= p <= cfg.maximum
    && ValidPlayerName(s.players[p].name)
    && 1 <= s.players[p].session < s.nextSession
  }

  predicate Distinct(players: Players)
  {
    forall p, q | p in players && q in players && p != q ::
      players[p].session != players[q].session && players[p].name != players[q].name
  }

  /** Seats are numbered 1 to the maximum; sessions and names are unique; names are valid. */
  predicate Seated(cfg: Config, s: Room)
  {
    && s.revision >= 1 && s.nextSession >= 1
    && |s.players| <= cfg.maximum
    && (forall p | p in s.players :: GoodSeat(cfg, s, p))
    && Distinct(s.players)
  }

  /** `remaining` is a whole number of steps. */
  predicate WholeSteps(remaining: nat, step: nat)
    requires step > 0
  {
    remaining == 0 || (remaining >= step && WholeSteps(remaining - step, step))
  }

  lemma {:induction false} MultiplesAreWhole(k: nat, step: nat)
    requires step > 0
    ensures WholeSteps(k * step, step)
  {
    if k > 0 {
      MultiplesAreWhole(k - 1, step);
      assert k * step - step == (k - 1) * step >= 0;
    }
  }

  lemma InitialIsWhole(cfg: Config)
    requires cfg.Valid()
    ensures WholeSteps(cfg.initialSeconds, cfg.stepSeconds)
  {
    var k: nat := cfg.initialSeconds / cfg.stepSeconds;
    MultiplesAreWhole(k, cfg.stepSeconds);
    assert cfg.initialSeconds == k * cfg.stepSeconds;
  }

  /** The five flags and the remaining time encode exactly one phase. */
  predicate Consistent(cfg: Config, s: Room)
    requires cfg.Valid()
  {
    && (s.countdownActive <==> s.countdownRemaining.Some?)
    && (s.countdownActive ==> !s.started && !s.manualStart && s.players != map[] && AllReady(s.players))
    && (s.countdownActive ==>
          1 <= s.countdownRemaining.value <= cfg.initialSeconds
          && WholeSteps(s.countdownRemaining.value, cfg.stepSeconds))
    && (s.started ==> !s.manualStart && s.players != map[] && AllReady(s.players))
    && (s.gameplayActive ==> s.started && !s.gameEnded && AllLoaded(s.players))
    && (s.gameEnded ==> s.started)
    && (!s.gameplayActive && !s.gameEnded ==> s.gameplaySequence == 0)
    && (!s.started ==> forall p | p in s.players :: !s.players[p].loaded)
  }

  /** Pending actions are valid, come from present players and exist only while the game runs. */
  predicate Queued(s: Room)
  {
    && (!s.gameplayActive ==> s.pending == [])
    && |s.pending| <= MAX_PENDING_ACTIONS
    && s.pendingBytes == ByteCount(s.pending) <= MAX_PENDING_ACTION_BYTES
    && ValidActions(s.pending)
    && (forall i | 0 <= i < |s.pending| :: s.pending[i].player in s.players)
  }

  /** Nothing sent in a game survives it: no sequence number or checksum exists before the game starts. */
  predicate Untouched(s: Room)
  {
    !s.started ==> forall p | p in s.players :: s.players[p].lastSequence == 0 && s.players[p].checksums == []
  }

  /** Full, ready and not yet started: the automatic countdown is running. */
  predicate FullRoomCounts(cfg: Config, s: Room)
  {
    && !s.started && |s.players| == cfg.maximum && s.players != map[] && AllReady(s.players)
    && s.countdownGeneration < U64_MAX
    ==> s.countdownActive
  }

  /** An armed manual start still waits for somebody. */
  predicate ArmedStartWaits(s: Room)
  {
    s.manualStart ==>
      && !s.started && !s.countdownActive && |s.players| >= MINIMUM_PLAYERS
      && (!AllReady(s.players) || s.countdownGeneration == U64_MAX)
  }

  /** A loading game with enough players still waits for somebody. */
  predicate LoadingWaits(s: Room)
  {
    CanBeginGameplay(s) ==> s.gameplayGeneration == U64_MAX
  }

  /** The room is never stuck: whoever should have been acted for has been. */
  predicate Served(cfg: Config, s: Room)
  {
    && FullRoomCounts(cfg, s)
    && ArmedStartWaits(s)
    && LoadingWaits(s)
    && (s.countdownActive && cfg.maximum >= MINIMUM_PLAYERS ==> |s.players| >= MINIMUM_PLAYERS)
  }

  predicate Valid(cfg: Config, s: Room)
    requires cfg.Valid()
  {
    && Seated(cfg, s)
    && Consistent(cfg, s)
    && Queued(s)
    && Untouched(s)
    && Served(cfg, s)
  }

  lemma FreshIsValid(cfg: Config, revision: u64)
    requires cfg.Valid() && revision >= 1
    ensures Valid(cfg, FreshRoom(revision))
  {
  }

  // Seats.

  lemma {:induction false} LeastFreeIsLeast(taken: set<u8>, candidate: nat, maximum: u8)
    requires candidate <= maximum + 1
    ensures var id := LeastFree(taken, candidate, maximum);
            if id.None? then forall n: u8 | candidate <= n <= maximum :: n in taken
            else candidate <= id.value <= maximum && id.value !in taken
                 && forall n: u8 | candidate <= n < id.value :: n in taken
    decreases maximum + 1 - candidate
  {
    if candidate <= maximum && candidate in taken {
      LeastFreeIsLeast(taken, candidate + 1, maximum);
    }
  }

  function Upto(n: u8): (ids: set<u8>)
  {
    if n == 0 then {} else Upto(n - 1) + {n}
  }

  lemma {:induction false} UptoSize(n: u8)
    ensures |Upto(n)| == n
    ensures forall id: u8 :: id in Upto(n) <==> 1 <= id <= n
  {
    if n > 0 {
      UptoSize(n - 1);
    }
  }

  lemma {:induction false} SubsetSize(a: set<u8>, b: set<u8>)
    requires a <= b
    ensures |a| <= |b|
    ensures |a| == |b| ==> a == b
  {
    if a != {} {
      var x :| x in a;
      SubsetSize(a - {x}, b - {x});
      assert a == (a - {x}) + {x} && b == (b - {x}) + {x};
    } else if |b| == 0 {
      assert b == {};
    }
  }

  /** Pigeonhole: below capacity some id is free, so the second `Full` exit of `Join` is never taken. */
  lemma SeatIsFree(cfg: Config, s: Room)
    requires Seated(cfg, s) && |s.players| < cfg.maximum
    ensures LeastFree(s.players.Keys, 1, cfg.maximum).Some?
  {
    LeastFreeIsLeast(s.players.Keys, 1, cfg.maximum);
    assert forall p | p in s.players :: GoodSeat(cfg, s, p);
    if LeastFree(s.players.Keys, 1, cfg.maximum).None? {
      UptoSize(cfg.maximum);
      assert Upto(cfg.maximum) <= s.players.Keys;
      SubsetSize(Upto(cfg.maximum), s.players.Keys);
    }
  }

  predicate CanJoin(cfg: Config, s: Room, name: string)
  {
    && !s.started && !s.countdownActive && |s.players| < cfg.maximum && s.nextSession < U64_MAX
    && forall p | p in s.players :: s.players[p].name != name
  }

  /** `Join` seats the newcomer exactly when nothing forbids it, at the least free id, under a new session. */
  lemma JoinOutcome(cfg: Config, s: Room, name: string)
    requires cfg.Valid() && Valid(cfg, s)
    ensures var e := Join(cfg, s, name);
            if CanJoin(cfg, s, name) then
              var id := LeastFree(s.players.Keys, 1, cfg.maximum);
              && id.Some? && 1 <= id.value <= cfg.maximum && id.value !in s.players
              && e.reply == Joined(id.value, s.nextSession, Seat(s, id.value, name).Roster())
              && e.room == Seat(s, id.value, name)
              && e.tail == Send(RosterUpdate(e.reply.roster))
            else e.reply.Refused? && e.room == s && e.tail == Nothing
    ensures Join(cfg, s, name).sent == []
  {
    LeastFreeIsLeast(s.players.Keys, 1, cfg.maximum);
    if |s.players| < cfg.maximum {
      SeatIsFree(cfg, s);
    }
  }

  lemma SeatKeepsSeated(cfg: Config, s: Room, id: u8, name: string)
    requires Seated(cfg, s) && s.nextSession < U64_MAX && |s.players| < cfg.maximum
    requires ValidPlayerName(name) && 1 <= id <= cfg.maximum && id !in s.players
    requires forall p | p in s.players :: s.players[p].name != name
    ensures Seated(cfg, Seat(s, id, name))
  {
    var s' := Seat(s, id, name);
    forall p | p in s'.players ensures GoodSeat(cfg, s', p) {
      if p != id {
        assert GoodSeat(cfg, s, p);
      }
    }
    forall p, q | p in s'.players && q in s'.players && p != q
      ensures s'.players[p].session != s'.players[q].session && s'.players[p].name != s'.players[q].name
    {
      assert p != id ==> GoodSeat(cfg, s, p);
      assert q != id ==> GoodSeat(cfg, s, q);
    }
  }

  lemma SeatKeepsRest(cfg: Config, s: Room, id: u8, name: string)
    requires cfg.Valid() && Valid(cfg, s) && !s.started && !s.countdownActive
    requires s.nextSession < U64_MAX && |s.players| < cfg.maximum && id !in s.players
    ensures var s' := Seat(s, id, name); Consistent(cfg, s') && Queued(s') && Untouched(s') && Served(cfg, s')
  {
    var s' := Seat(s, id, name);
    assert !s'.players[id].ready;
    assert !AllReady(s'.players);
    assert |s'.players| == |s.players| + 1;
  }

  lemma JoinKeepsValid(cfg: Config, s: Room, name: string)
    requires cfg.Valid() && Valid(cfg, s) && ValidPlayerName(name)
    ensures Valid(cfg, Join(cfg, s, name).room)
  {
    JoinOutcome(cfg, s, name);
    if CanJoin(cfg, s, name) {
      var id := LeastFree(s.players.Keys, 1, cfg.maximum).value;
      SeatKeepsSeated(cfg, s, id, name);
      SeatKeepsRest(cfg, s, id, name);
      assert Valid(cfg, Seat(s, id, name));
    }
  }

  /** The same people in the same seats; only what they have reported may differ. */
  predicate SamePeople(a: Players, b: Players)
  {
    && a.Keys == b.Keys
    && forall p | p in a :: a[p].session == b[p].session && a[p].name == b[p].name
  }

  lemma SamePeopleKeepsSeated(cfg: Config, s: Room, s': Room)
    requires Seated(cfg, s) && SamePeople(s.players, s'.players)
    requires s'.revision == s.revision && s'.nextSession == s.nextSession
    ensures Seated(cfg, s')
  {
    assert |s'.players| == |s'.players.Keys| == |s.players.Keys| == |s.players|;
    forall p | p in s'.players ensures GoodSeat(cfg, s', p) {
      assert GoodSeat(cfg, s, p);
    }
  }

  lemma PeopleCount(a: Players, b: Players)
    requires a.Keys == b.Keys
    ensures |a| == |b|
  {
    assert |a| == |a.Keys| == |b.Keys| == |b|;
  }

  // Readiness and the countdown.

  function Ready(s: Room, p: u8): (s': Room)
    requires p in s.players
  {
    s.(players := s.players[p := s.players[p].(ready := true)])
  }

  /** Everything but the duty to start a countdown. */
  predicate ValidButIdle(cfg: Config, s: Room)
    requires cfg.Valid()
  {
    && Seated(cfg, s) && Consistent(cfg, s) && Queued(s) && Untouched(s) && LoadingWaits(s)
    && (s.manualStart ==> !s.started && !s.countdownActive && |s.players| >= MINIMUM_PLAYERS)
    && (s.countdownActive && cfg.maximum >= MINIMUM_PLAYERS ==> |s.players| >= MINIMUM_PLAYERS)
  }

  lemma ReadyKeepsValid(cfg: Config, s: Room, p: u8)
    requires cfg.Valid() && Valid(cfg, s) && p in s.players && !s.players[p].ready
    ensures var s' := Ready(s, p);
            && ValidButIdle(cfg, s') && !s'.started && !s'.countdownActive
            && (!CanStartAutomatically(s', cfg.maximum) && !CanStartOnRequest(s') ==> Valid(cfg, s'))
  {
    var s' := Ready(s, p);
    assert !AllReady(s.players);
    PeopleCount(s.players, s'.players);
    SamePeopleKeepsSeated(cfg, s, s');
  }

  lemma BeginCountdownKeepsValid(cfg: Config, s: Room)
    requires cfg.Valid() && ValidButIdle(cfg, s)
    requires !s.started && !s.countdownActive && s.players != map[] && AllReady(s.players)
    requires |s.players| == cfg.maximum || |s.players| >= MINIMUM_PLAYERS
    ensures Valid(cfg, BeginCountdown(cfg, s).room)
  {
    var s' := BeginCountdown(cfg, s).room;
    InitialIsWhole(cfg);
    if s.countdownGeneration < U64_MAX {
      SamePeopleKeepsSeated(cfg, s, s');
    }
  }

  lemma MarkReadyKeepsValid(cfg: Config, s: Room, p: u8, session: u64)
    requires cfg.Valid() && Valid(cfg, s)
    ensures Valid(cfg, MarkReady(cfg, s, p, session).room)
  {
    if HasSession(s.players, p, session) && !s.players[p].ready {
      var s' := Ready(s, p);
      ReadyKeepsValid(cfg, s, p);
      if CanStartAutomatically(s', cfg.maximum) || CanStartOnRequest(s') {
        BeginCountdownKeepsValid(cfg, s');
      }
    }
  }

  lemma ManualStartKeepsValid(cfg: Config, s: Room, p: u8, session: u64)
    requires cfg.Valid() && Valid(cfg, s)
    ensures Valid(cfg, RequestManualStart(cfg, s, p, session).room)
  {
    if HasSession(s.players, p, session) && !s.started && !s.countdownActive && |s.players| >= MINIMUM_PLAYERS {
      if AllReady(s.players) {
        BeginCountdownKeepsValid(cfg, s);
      } else {
        SamePeopleKeepsSeated(cfg, s, s.(manualStart := true));
      }
    }
  }

  lemma CountdownTickKeepsValid(cfg: Config, s: Room, generation: u64, remaining: u8)
    requires cfg.Valid() && Valid(cfg, s)
    requires s.countdownActive && s.countdownGeneration == generation ==>
               cfg.stepSeconds < s.countdownRemaining.value && remaining == s.countdownRemaining.value - cfg.stepSeconds
    ensures Valid(cfg, CountdownTick(s, generation, remaining).0)
  {
    if CountdownMatches(s, generation) {
      SamePeopleKeepsSeated(cfg, s, CountdownTick(s, generation, remaining).0);
    }
  }

  lemma FinishCountdownKeepsValid(cfg: Config, s: Room, generation: u64)
    requires cfg.Valid() && Valid(cfg, s)
    ensures Valid(cfg, FinishCountdown(s, generation).0)
  {
    if CountdownMatches(s, generation) {
      var s' := FinishCountdown(s, generation).0;
      SamePeopleKeepsSeated(cfg, s, s');
      var p :| p in s.players;
      assert !s'.players[p].loaded;
    }
  }

  // Loading and gameplay.

  function Loaded(s: Room, p: u8): (s': Room)
    requires p in s.players
  {
    s.(players := s.players[p := s.players[p].(loaded := true)])
  }

  /** Everything but the duty to begin gameplay. */
  predicate ValidButLoading(cfg: Config, s: Room)
    requires cfg.Valid()
  {
    && Seated(cfg, s) && Consistent(cfg, s) && Queued(s) && Untouched(s)
    && FullRoomCounts(cfg, s) && ArmedStartWaits(s)
    && (s.countdownActive && cfg.maximum >= MINIMUM_PLAYERS ==> |s.players| >= MINIMUM_PLAYERS)
  }

  lemma BeginGameplayKeepsValid(cfg: Config, s: Room)
    requires cfg.Valid() && ValidButLoading(cfg, s)
    ensures Valid(cfg, BeginGameplayIfReady(s).room)
  {
    SamePeopleKeepsSeated(cfg, s, BeginGameplayIfReady(s).room);
  }

  lemma MarkLoadedKeepsValid(cfg: Config, s: Room, p: u8, session: u64)
    requires cfg.Valid() && Valid(cfg, s)
    ensures Valid(cfg, MarkLoaded(s, p, session).room)
  {
    if HasSession(s.players, p, session) && s.started && !s.gameEnded && !s.players[p].loaded {
      var s' := Loaded(s, p);
      PeopleCount(s.players, s'.players);
      SamePeopleKeepsSeated(cfg, s, s');
      assert AllReady(s'.players);
      BeginGameplayKeepsValid(cfg, s');
    }
  }

  /** Everyone is where they were and as ready and loaded as before. */
  predicate SameStanding(a: Players, b: Players)
  {
    && SamePeople(a, b)
    && forall p | p in a :: a[p].ready == b[p].ready && a[p].loaded == b[p].loaded
  }

  lemma SameStandingFlags(a: Players, b: Players)
    requires SameStanding(a, b)
    ensures |a| == |b| && (a == map[] <==> b == map[])
    ensures AllReady(a) <==> AllReady(b)
    ensures AllLoaded(a) <==> AllLoaded(b)
  {
    PeopleCount(a, b);
    if AllReady(a) {
      assert forall p | p in b :: a[p].ready == b[p].ready;
    }
    if AllLoaded(a) {
      assert forall p | p in b :: a[p].loaded == b[p].loaded;
    }
  }

  /** Reports of a running game, and chat at any time, leave the room valid. */
  lemma ReportsKeepValid(cfg: Config, s: Room, players: Players)
    requires cfg.Valid() && Valid(cfg, s) && SameStanding(s.players, players)
    requires !s.started ==> forall p | p in players ::
               players[p].lastSequence == s.players[p].lastSequence && players[p].checksums == s.players[p].checksums
    ensures Valid(cfg, s.(players := players))
  {
    SameStandingFlags(s.players, players);
    SamePeopleKeepsSeated(cfg, s, s.(players := players));
  }

  lemma EnqueueKeepsValid(cfg: Config, s: Room, action: PlayerAction)
    requires cfg.Valid() && Valid(cfg, s) && s.gameplayActive && ValidAction(action) && action.player in s.players
    requires |s.pending| < MAX_PENDING_ACTIONS && s.pendingBytes + RecordLength(action) <= MAX_PENDING_ACTION_BYTES
    ensures Valid(cfg, s.(pending := s.pending + [action], pendingBytes := s.pendingBytes + RecordLength(action)))
  {
    var s' := s.(pending := s.pending + [action], pendingBytes := s.pendingBytes + RecordLength(action));
    SamePeopleKeepsSeated(cfg, s, s');
    ByteCountAppend(s.pending, [action]);
    assert ByteCount([action]) == RecordLength(action);
  }

  lemma SubmitActionKeepsValid(cfg: Config, s: Room, p: u8, session: u64, sequence: u64, action: PlayerAction)
    requires cfg.Valid() && Valid(cfg, s) && ValidAction(action)
    ensures Valid(cfg, SubmitAction(s, p, session, sequence, action).room)
  {
    hide Seated, Served;
    if SubmitAction(s, p, session, sequence, action).reply == Done {
      var s' := WithSequence(s, p, sequence);
      UpdateKeepsStanding(s.players, p, s'.players[p]);
      ReportsKeepValid(cfg, s, s'.players);
      EnqueueKeepsValid(cfg, s', action);
    }
  }

  lemma DropKeepsStanding(players: Players, rounds: nat)
    requires HasRounds(QueuesOf(players), rounds)
    ensures SameStanding(players, DropRounds(players, rounds))
  {
  }

  lemma UpdateKeepsStanding(players: Players, p: u8, player: ConnectedPlayer)
    requires p in players
    requires player.session == players[p].session && player.name == players[p].name
    requires player.ready == players[p].ready && player.loaded == players[p].loaded
    ensures SameStanding(players, players[p := player])
  {
  }

  lemma ReportKeepsValid(cfg: Config, s: Room, p: u8, sequence: u64, checksum: u32)
    requires cfg.Valid() && Valid(cfg, s) && s.started && p in s.players
    ensures Valid(cfg, WithChecksum(WithSequence(s, p, sequence), p, checksum))
  {
    var s1 := WithSequence(s, p, sequence);
    UpdateKeepsStanding(s.players, p, s1.players[p]);
    ReportsKeepValid(cfg, s, s1.players);
    var s2 := WithChecksum(s1, p, checksum);
    UpdateKeepsStanding(s1.players, p, s2.players[p]);
    ReportsKeepValid(cfg, s1, s2.players);
  }

  lemma SubmitKeepAliveKeepsValid(cfg: Config, s: Room, p: u8, session: u64, sequence: u64, checksum: u32)
    requires cfg.Valid() && Valid(cfg, s)
    ensures Valid(cfg, SubmitKeepAlive(s, p, session, sequence, checksum).room)
  {
    hide Seated, Queued, Untouched, Served, Judge, SameStanding;
    if SubmitKeepAlive(s, p, session, sequence, checksum).reply == Done {
      var s' := WithChecksum(WithSequence(s, p, sequence), p, checksum);
      ReportKeepsValid(cfg, s, p, sequence, checksum);
      var rounds := Judge(QueuesOf(s'.players)).rounds;
      DropKeepsStanding(s'.players, rounds);
      ReportsKeepValid(cfg, s', DropRounds(s'.players, rounds));
    }
  }

  lemma PublishChatKeepsValid(cfg: Config, s: Room, p: u8, session: u64, message: string, now: nat)
    requires cfg.Valid() && Valid(cfg, s)
    ensures Valid(cfg, PublishChat(s, p, session, message, now).room)
  {
    hide Seated, Consistent, Queued, Untouched, Served, SameStanding;
    var e := PublishChat(s, p, session, message, now);
    if e.reply == Relayed(true) {
      UpdateKeepsStanding(s.players, p, e.room.players[p]);
      ReportsKeepValid(cfg, s, e.room.players);
    }
  }

  /** Repeating one's last message is relayed again exactly when the window has passed. */
  lemma RepeatsAreDropped(s: Room, p: u8, session: u64, message: string, now: nat, later: nat)
    requires PublishChat(s, p, session, message, now).reply == Relayed(true)
    ensures var again := PublishChat(PublishChat(s, p, session, message, now).room, p, session, message, later);
            && again.reply == Relayed(later > now + CHAT_DUPLICATE_WINDOW)
            && (again.tail == Nothing <==> later <= now + CHAT_DUPLICATE_WINDOW)
  {
    var s1 := PublishChat(s, p, session, message, now).room;
    assert s1.players[p].lastChat == Some(RecentChat(message, now));
  }

  lemma PublishKeepsValid(cfg: Config, s: Room, incrementMs: u16)
    requires cfg.Valid() && Valid(cfg, s) && s.gameplayActive
    ensures Valid(cfg, PublishPending(cfg, s, incrementMs).room)
    ensures PublishPending(cfg, s, incrementMs).room.pending == []
  {
    SamePeopleKeepsSeated(cfg, s, PublishPending(cfg, s, incrementMs).room);
  }

  // Departures and endings.

  lemma WithoutKeepsSeated(cfg: Config, s: Room, p: u8)
    requires Seated(cfg, s)
    ensures Seated(cfg, Without(s, p))
  {
    var s' := Without(s, p);
    SubsetSize(s'.players.Keys, s.players.Keys);
    forall q | q in s'.players ensures GoodSeat(cfg, s', q) {
      assert GoodSeat(cfg, s, q);
    }
  }

  lemma WithoutKeepsRest(cfg: Config, s: Room, p: u8)
    requires cfg.Valid() && Valid(cfg, s) && p in s.players && s.pending == []
    ensures var s' := Without(s, p);
            if s'.players == map[] then Valid(cfg, ResetGame(s')) else ValidButLoading(cfg, s')
  {
    var s' := Without(s, p);
    WithoutKeepsSeated(cfg, s, p);
    assert s'.players.Keys == s.players.Keys - {p};
    assert |s'.players| == |s.players| - 1;
    if s'.players == map[] {
      SamePeopleKeepsSeated(cfg, s', ResetGame(s'));
    }
  }

  lemma RemoveKeepsValid(cfg: Config, s: Room, p: u8, reason: LeaveReason)
    requires cfg.Valid() && Valid(cfg, s) && p in s.players && s.pending == []
    ensures Valid(cfg, Remove(s, p, reason).room)
  {
    var s' := Without(s, p);
    WithoutKeepsRest(cfg, s, p);
    if s'.players != map[] {
      BeginGameplayKeepsValid(cfg, s');
      if s.started && |s'.players| == 1 {
        assert Remove(s, p, reason).room == BeginGameplayIfReady(s').room == s';
      }
    }
  }

  lemma LeaveKeepsValid(cfg: Config, s: Room, p: u8, session: u64, reason: LeaveReason)
    requires cfg.Valid() && Valid(cfg, s)
    ensures Valid(cfg, Leave(cfg, s, p, session, reason).room)
  {
    if HasSession(s.players, p, session) {
      if s.gameplayActive && s.pending != [] {
        var flushed := PublishPending(cfg, s, 0);
        PublishKeepsValid(cfg, s, 0);
        if flushed.failure.None? {
          RemoveKeepsValid(cfg, flushed.room, p, reason);
        }
      } else {
        RemoveKeepsValid(cfg, s, p, reason);
      }
    }
  }

  lemma EndGameKeepsValid(cfg: Config, s: Room, cause: EndReason)
    requires cfg.Valid() && Valid(cfg, s)
    ensures Valid(cfg, EndGameNow(s, cause).room)
  {
    SamePeopleKeepsSeated(cfg, s, EndGameNow(s, cause).room);
  }

  // What the invariant says.

  /** The flag record encodes one phase, and that phase says which flags are up. */
  lemma PhaseMeaning(cfg: Config, s: Room)
    requires cfg.Valid() && Valid(cfg, s)
    ensures match Phase(s)
            case Waiting => !s.countdownActive && !s.started && !s.gameplayActive && !s.gameEnded
            case Countdown(r) => s.countdownActive && !s.started && !s.gameplayActive && !s.gameEnded
                && AllReady(s.players)
            case Loading => !s.countdownActive && s.started && !s.gameplayActive && !s.gameEnded
            case Playing => !s.countdownActive && s.started && s.gameplayActive && !s.gameEnded && AllLoaded(s.players)
            case Ended => !s.countdownActive && s.started && !s.gameplayActive && s.gameEnded
    ensures s.players == map[] ==> Phase(s) == Waiting
  {
  }

  /** An empty room is a fresh room, up to its counters. */
  lemma EmptyIsFresh(cfg: Config, s: Room)
    requires cfg.Valid() && Valid(cfg, s) && s.players == map[]
    ensures s == FreshRoom(s.revision).(nextSession := s.nextSession, countdownGeneration := s.countdownGeneration,
                                        gameplayGeneration := s.gameplayGeneration)
  {
  }

  lemma RosterIsValid(cfg: Config, s: Room)
    requires cfg.Valid() && Valid(cfg, s) && s.players != map[]
    ensures ValidRoster(s.Roster(), cfg.maximum)
  {
    var p :| p in s.players;
    assert GoodSeat(cfg, s, p);
    forall q | q in Names(s.players) ensures 1 <= q <= cfg.maximum && ValidPlayerName(Names(s.players)[q]) {
      assert GoodSeat(cfg, s, q);
    }
    ListedRosterIsValid(s.revision, Names(s.players), cfg.maximum);
  }
}
