/** The lobby room: one method per critical section, each proved against its function in `RoomModel`. */
module LobbyRoomServer {
  import opened Bytes
  import opened Text
  import opened Frames
  import opened Actions
  import opened Batching
  import opened Rosters
  import opened Consensus
  import Model = RoomModel
  import opened RoomModel
  import Invariant = RoomInvariant

  class LobbyRoom {
    const cfg: Config

    /** The record behind the lock; a critical section updates it field by field. */
    var state: Room

    /** Everything broadcast so far. */
    var updates: seq<Update>

    /** The room's state and channel together with what a method returned. */
    ghost function Outcome(reply: Reply, tail: Tail): (e: Effect)
      reads this
    {
      Effect(state, updates, reply, tail)
    }

    /** What holds whenever the lock is free. */
    ghost predicate Valid()
      reads this
    {
      cfg.Valid() && Invariant.Valid(cfg, state)
    }

    constructor (cfg: Config, initialRevision: u64)
      ensures this.cfg == cfg && state == FreshRoom(initialRevision) && updates == []
      ensures cfg.Valid() && initialRevision >= 1 ==> Valid()
    {
      this.cfg := cfg;
      state := FreshRoom(initialRevision);
      updates := [];
    }

    method Join(name: string) returns (reply: Reply, tail: Tail)
      requires Valid()
      modifies this
      ensures Outcome(reply, tail) == Model.Join(cfg, old(state), name).OnChannel(old(updates))
      ensures ValidPlayerName(name) ==> Valid()
    {
      hide Invariant.Valid, LeastFree, ValidPlayerName, Room.Roster;
      if ValidPlayerName(name) {
        Invariant.JoinKeepsValid(cfg, state, name);
      }
      if state.started {
        return Refused(AlreadyStarted), Nothing;
      }
      if state.countdownActive {
        return Refused(CountingDown), Nothing;
      }
      if |state.players| >= cfg.maximum {
        return Refused(Full), Nothing;
      }
      if exists p | p in state.players :: state.players[p].name == name {
        return Refused(DuplicatePlayerName), Nothing;
      }
      var playerId := LeastFree(state.players.Keys, 1, cfg.maximum);
      if playerId.None? {
        return Refused(Full), Nothing;
      }
      var session := state.nextSession;
      if state.nextSession == U64_MAX {
        return Refused(SessionIdExhausted), Nothing;
      }
      state := state.(nextSession := state.nextSession + 1);
      var player := ConnectedPlayer(session, name, false, false, None, 0, []);
      state := state.(players := state.players[playerId.value := player]);
      state := state.(revision := SaturatingIncrement(state.revision));
      var roster := state.Roster();
      return Joined(playerId.value, session, roster), Send(RosterUpdate(roster));
    }

    method MarkReady(p: u8, session: u64) returns (reply: Reply, tail: Tail)
      requires Valid()
      modifies this
      ensures Outcome(reply, tail) == Model.MarkReady(cfg, old(state), p, session).OnChannel(old(updates))
      ensures Valid()
    {
      hide Invariant.Valid;
      Invariant.MarkReadyKeepsValid(cfg, state, p, session);
      if p !in state.players || state.players[p].session != session {
        return Failed(UnknownSession), Nothing;
      }
      if state.players[p].ready {
        return Done, Nothing;
      }
      state := state.(players := state.players[p := state.players[p].(ready := true)]);
      var allReady := AllReady(state.players);
      if !(!state.started && !state.countdownActive && |state.players| == cfg.maximum && allReady)
         && !(state.manualStart && !state.started && !state.countdownActive
              && |state.players| >= MINIMUM_PLAYERS && allReady) {
        return Done, Nothing;
      }
      reply, tail := BeginCountdown();
    }

    method BeginCountdown() returns (reply: Reply, tail: Tail)
      modifies this
      ensures Outcome(reply, tail) == Model.BeginCountdown(cfg, old(state)).OnChannel(old(updates))
    {
      if state.countdownGeneration == U64_MAX {
        return Failed(CountdownGenerationExhausted), Nothing;
      }
      state := state.(countdownGeneration := state.countdownGeneration + 1);
      state := state.(countdownActive := true);
      state := state.(countdownRemaining := Some(cfg.initialSeconds));
      state := state.(manualStart := false);
      updates := updates + [CountdownUpdate(cfg.initialSeconds)];
      return Done, SpawnCountdown(state.countdownGeneration);
    }

    method MarkLoaded(p: u8, session: u64) returns (reply: Reply, tail: Tail)
      requires Valid()
      modifies this
      ensures Outcome(reply, tail) == Model.MarkLoaded(old(state), p, session).OnChannel(old(updates))
      ensures Valid()
    {
      hide Invariant.Valid;
      Invariant.MarkLoadedKeepsValid(cfg, state, p, session);
      if p !in state.players || state.players[p].session != session {
        return Failed(UnknownSession), Nothing;
      }
      if !state.started || state.gameEnded {
        return Failed(GameNotStarted), Nothing;
      }
      if state.players[p].loaded {
        return Done, Nothing;
      }
      state := state.(players := state.players[p := state.players[p].(loaded := true)]);
      updates := updates + [PlayerLoaded(p)];
      reply, tail := BeginGameplayIfReady();
    }

    method BeginGameplayIfReady() returns (reply: Reply, tail: Tail)
      modifies this
      ensures Outcome(reply, tail) == Model.BeginGameplayIfReady(old(state)).OnChannel(old(updates))
    {
      if !state.started || state.gameplayActive || state.gameEnded
         || |state.players| < MINIMUM_PLAYERS || !AllLoaded(state.players) {
        return Done, Nothing;
      }
      if state.gameplayGeneration == U64_MAX {
        return Failed(GameplayGenerationExhausted), Nothing;
      }
      state := state.(gameplayGeneration := state.gameplayGeneration + 1);
      state := state.(gameplayActive := true);
      state := state.(gameplaySequence := 0);
      return Done, SpawnGameplay(state.gameplayGeneration);
    }

    method AcceptGameSequence(p: u8, sequence: u64) returns (error: Option<MembershipError>)
      requires p in state.players
      modifies this`state
      ensures error == SequenceError(old(state).players[p], sequence)
      ensures state == if error.Some? then old(state) else WithSequence(old(state), p, sequence)
    {
      if state.players[p].lastSequence == U64_MAX {
        return Some(GameSequenceExhausted);
      }
      var expected := state.players[p].lastSequence + 1;
      if sequence != expected {
        return Some(InvalidGameSequence(expected, sequence));
      }
      state := state.(players := state.players[p := state.players[p].(lastSequence := sequence)]);
      return None;
    }

    method SubmitAction(p: u8, session: u64, sequence: u64, action: PlayerAction) returns (reply: Reply, tail: Tail)
      requires Valid()
      modifies this
      ensures Outcome(reply, tail)
          == Model.SubmitAction(old(state), p, session, sequence, action).OnChannel(old(updates))
      ensures ValidAction(action) ==> Valid()
    {
      hide Invariant.Valid;
      if ValidAction(action) {
        Invariant.SubmitActionKeepsValid(cfg, state, p, session, sequence, action);
      }
      if p !in state.players || state.players[p].session != session {
        return Failed(UnknownSession), Nothing;
      }
      if !state.gameplayActive || state.gameEnded {
        return Failed(GameNotRunning), Nothing;
      }
      if action.player != p {
        return Failed(ActionPlayerMismatch), Nothing;
      }
      var actionBytes := |action.data| + 3;
      if |state.pending| >= MAX_PENDING_ACTIONS || state.pendingBytes + actionBytes > MAX_PENDING_ACTION_BYTES {
        return Failed(ActionQueueFull), Nothing;
      }
      var error := AcceptGameSequence(p, sequence);
      if error.Some? {
        return Failed(error.value), Nothing;
      }
      state := state.(pendingBytes := state.pendingBytes + actionBytes);
      state := state.(pending := state.pending + [action]);
      return Done, Nothing;
    }

    method SubmitKeepAlive(p: u8, session: u64, sequence: u64, checksum: u32) returns (reply: Reply, tail: Tail)
      requires Valid()
      modifies this
      ensures Outcome(reply, tail)
          == Model.SubmitKeepAlive(old(state), p, session, sequence, checksum).OnChannel(old(updates))
      ensures Valid()
    {
      hide Invariant.Valid;
      Invariant.SubmitKeepAliveKeepsValid(cfg, state, p, session, sequence, checksum);
      if p !in state.players || state.players[p].session != session {
        return Failed(UnknownSession), Nothing;
      }
      hide Judge, QueuesOf, DropRounds;
      if !state.gameplayActive || state.gameEnded {
        return Failed(GameNotRunning), Nothing;
      }
      if |state.players[p].checksums| >= MAX_PENDING_CHECKSUMS {
        return Failed(ChecksumQueueFull), Nothing;
      }
      var error := AcceptGameSequence(p, sequence);
      if error.Some? {
        return Failed(error.value), Nothing;
      }
      var checksums := state.players[p].checksums + [checksum];
      state := state.(players := state.players[p := state.players[p].(checksums := checksums)]);
      var desync := ConsumeChecksumConsensus();
      return Done, if desync then Tail.EndGame(Desync) else Nothing;
    }

    method ConsumeChecksumConsensus() returns (desync: bool)
      modifies this`state
      ensures var verdict := Judge(QueuesOf(old(state).players));
              && desync == verdict.desync
              && state == old(state).(players := DropRounds(old(state).players, verdict.rounds))
    {
      var players;
      desync, players := SpendRounds(state.players);
      state := state.(players := players);
    }

    method PublishChat(p: u8, session: u64, message: string, now: nat) returns (reply: Reply, tail: Tail)
      requires Valid()
      modifies this
      ensures Outcome(reply, tail) == Model.PublishChat(old(state), p, session, message, now).OnChannel(old(updates))
      ensures Valid()
    {
      hide Invariant.Valid;
      Invariant.PublishChatKeepsValid(cfg, state, p, session, message, now);
      if p !in state.players || state.players[p].session != session {
        return Failed(UnknownSession), Nothing;
      }
      if IsDuplicateChat(state.players[p], message, now) {
        return Relayed(false), Nothing;
      }
      state := state.(players := state.players[p := state.players[p].(lastChat := Some(RecentChat(message, now)))]);
      return Relayed(true), Send(Chat(p, message));
    }

    method RequestManualStart(p: u8, session: u64) returns (reply: Reply, tail: Tail)
      requires Valid()
      modifies this
      ensures Outcome(reply, tail) == Model.RequestManualStart(cfg, old(state), p, session).OnChannel(old(updates))
      ensures Valid()
    {
      hide Invariant.Valid;
      Invariant.ManualStartKeepsValid(cfg, state, p, session);
      if p !in state.players || state.players[p].session != session {
        return Failed(UnknownSession), Nothing;
      }
      if state.started {
        return ManualStart(GameAlreadyStarted), Nothing;
      }
      if state.countdownActive {
        return ManualStart(AlreadyCountingDown), Nothing;
      }
      if |state.players| < MINIMUM_PLAYERS {
        return ManualStart(NotEnoughPlayers), Nothing;
      }
      if !AllReady(state.players) {
        state := state.(manualStart := true);
        return ManualStart(PlayersNotReady), Nothing;
      }
      reply, tail := BeginCountdown();
      if !reply.Failed? {
        reply := ManualStart(Started);
      }
    }

    method Leave(p: u8, session: u64, reason: LeaveReason) returns (reply: Reply, tail: Tail)
      requires Valid()
      modifies this
      ensures Outcome(reply, tail) == Model.Leave(cfg, old(state), p, session, reason).OnChannel(old(updates))
      ensures Valid()
    {
      hide Invariant.Valid, Model.Remove, PublishPending;
      Invariant.LeaveKeepsValid(cfg, state, p, session, reason);
      if p !in state.players || state.players[p].session != session {
        return Done, Nothing;
      }
      if state.gameplayActive && state.pending != [] {
        var failure := PublishPendingActions(0);
        if failure.Some? {
          return Failed(failure.value), Nothing;
        }
      }
      reply, tail := Remove(p, reason);
    }

    /** The rest of `Leave`, once a running game's pending actions are out. */
    method Remove(p: u8, reason: LeaveReason) returns (reply: Reply, tail: Tail)
      modifies this
      ensures Outcome(reply, tail) == Model.Remove(old(state), p, reason).OnChannel(old(updates))
    {
      var gameHadStarted := state.started;
      Unseat(p, reason);
      if state.players == map[] {
        ResetGame();
        return Done, Nothing;
      }
      if gameHadStarted && |state.players| == 1 {
        return Done, SpawnLastPlayerTimer(state.gameplayGeneration);
      }
      reply, tail := BeginGameplayIfReady();
    }

    /** The part of `Leave` that frees the seat and tells the others. */
    method Unseat(p: u8, reason: LeaveReason)
      modifies this
      ensures state == Without(old(state), p)
      ensures updates == old(updates) + DepartureUpdates(old(state), p, reason)
    {
      var gameHadStarted := state.started;
      state := state.(players := state.players - {p});
      state := state.(revision := SaturatingIncrement(state.revision));
      var roster := state.Roster();
      var countdownWasActive := state.countdownActive;
      state := state.(countdownActive := false);
      state := state.(countdownRemaining := None);
      state := state.(manualStart := false);
      if gameHadStarted {
        updates := updates + [PlayerLeft(p, reason, roster)];
      } else {
        updates := updates + [RosterUpdate(roster)];
        if countdownWasActive {
          updates := updates + [CountdownCancelled];
        }
      }
    }

    method ResetGame()
      modifies this
      ensures state == Model.ResetGame(old(state)) && updates == old(updates)
    {
      state := state.(countdownActive := false);
      state := state.(countdownRemaining := None);
      state := state.(manualStart := false);
      state := state.(started := false);
      state := state.(gameplayActive := false);
      state := state.(gameEnded := false);
      state := state.(gameplayGeneration := SaturatingIncrement(state.gameplayGeneration));
      state := state.(gameplaySequence := 0);
      state := state.(pending := []);
      state := state.(pendingBytes := 0);
    }

    method PublishPendingActions(incrementMs: u16) returns (failure: Option<MembershipError>)
      modifies this
      ensures var published := PublishPending(cfg, old(state), incrementMs);
              state == published.room && updates == old(updates) + published.sent && failure == published.failure
    {
      var actions := state.pending;
      state := state.(pending := []);
      state := state.(pendingBytes := 0);
      var batch := IncomingActionFrames(cfg.crc, incrementMs, actions);
      if batch.Err? {
        return Some(GameplayFrameEncoding);
      }
      var sent, last;
      sent, last, failure := NumberFrames(batch.value, state.gameplaySequence);
      state := state.(gameplaySequence := last);
      updates := updates + sent;
    }

    method PublishGameplayTick(generation: u64) returns (result: TickResult)
      requires Valid()
      modifies this
      ensures var (room, sent, r) := GameplayTick(cfg, old(state), generation);
              state == room && updates == old(updates) + sent && result == r
      ensures Valid()
    {
      hide Invariant.Valid;
      if state.gameplayActive {
        Invariant.PublishKeepsValid(cfg, state, cfg.incrementMs);
      }
      if !state.gameplayActive || state.gameEnded || state.gameplayGeneration != generation || state.players == map[] {
        return Stop;
      }
      var failure := PublishPendingActions(cfg.incrementMs);
      if failure.Some? {
        return TickFailed(failure.value);
      }
      return Continue;
    }

    method EndGame(cause: EndReason)
      requires Valid()
      modifies this
      ensures Outcome(Done, Nothing) == EndGameNow(old(state), cause).OnChannel(old(updates))
      ensures Valid()
    {
      hide Invariant.Valid;
      Invariant.EndGameKeepsValid(cfg, state, cause);
      if !state.started || state.gameEnded {
        return;
      }
      if state.players == map[] {
        ResetGame();
        return;
      }
      state := state.(gameplayActive := false);
      state := state.(gameEnded := true);
      state := state.(gameplayGeneration := SaturatingIncrement(state.gameplayGeneration));
      state := state.(pending := []);
      state := state.(pendingBytes := 0);
      updates := updates + [GameEnded(cause)];
    }

    /** `remaining` is one step less than the time left of the countdown, if that is still `generation`'s. */
    ghost predicate OneStepLeft(generation: u64, remaining: u8)
      reads this
    {
      state.countdownActive && state.countdownGeneration == generation ==>
        remaining >= 1 && state.countdownRemaining == Some(remaining + cfg.stepSeconds)
    }

    method PublishCountdownTick(generation: u64, remaining: u8) returns (live: bool)
      requires Valid()
      modifies this
      ensures var (room, sent, r) := CountdownTick(old(state), generation, remaining);
              state == room && updates == old(updates) + sent && live == r
      ensures old(OneStepLeft(generation, remaining)) ==> Valid()
    {
      hide Invariant.Valid;
      if OneStepLeft(generation, remaining) {
        Invariant.CountdownTickKeepsValid(cfg, state, generation, remaining);
      }
      if !(state.countdownActive && state.countdownGeneration == generation
           && AllReady(state.players) && !state.started) {
        return false;
      }
      state := state.(countdownRemaining := Some(remaining));
      updates := updates + [CountdownUpdate(remaining)];
      return true;
    }

    method StartGame(generation: u64)
      requires Valid()
      modifies this
      ensures var (room, sent) := FinishCountdown(old(state), generation);
              state == room && updates == old(updates) + sent
      ensures Valid()
    {
      hide Invariant.Valid;
      Invariant.FinishCountdownKeepsValid(cfg, state, generation);
      if !(state.countdownActive && state.countdownGeneration == generation
           && AllReady(state.players) && !state.started) {
        return;
      }
      state := state.(countdownActive := false);
      state := state.(countdownRemaining := None);
      state := state.(started := true);
      updates := updates + [Start];
    }

    method ShouldEndForLonePlayer(generation: u64) returns (end: bool)
      requires Valid()
      ensures end == LonePlayer(state, generation)
      ensures end <==> && (Phase(state) == Loading || Phase(state) == Playing)
                       && state.gameplayGeneration == generation
                       && exists p :: state.players.Keys == {p}
      ensures end ==> EndGameNow(state, LastPlayerStanding).sent == [GameEnded(LastPlayerStanding)]
    {
      OneKey(state.players);
      end := state.started && !state.gameEnded && |state.players| == 1 && state.gameplayGeneration == generation;
    }

    method ControlSnapshot() returns (roster: Roster, phase: LobbyPhase, loaded: set<u8>)
      requires Valid()
      ensures roster == state.Roster() && phase == Phase(state)
      ensures loaded == set p | p in state.players && state.players[p].loaded
      ensures state.players == map[] ==> phase == Waiting
      ensures state.players != map[] ==> ValidRoster(roster, cfg.maximum)
      ensures phase == Waiting || phase.Countdown? ==> loaded == {}
      ensures phase == Loading && |state.players| >= MINIMUM_PLAYERS && state.gameplayGeneration < U64_MAX ==>
                loaded < state.players.Keys
      ensures phase == Playing ==> loaded == state.players.Keys
    {
      if state.gameEnded {
        phase := Ended;
      } else if state.gameplayActive {
        phase := Playing;
      } else if state.started {
        phase := Loading;
      } else if state.countdownRemaining.Some? {
        phase := Countdown(state.countdownRemaining.value);
      } else {
        phase := Waiting;
      }
      roster := state.Roster();
      loaded := set p | p in state.players && state.players[p].loaded;
      LoadedByPhase(cfg, state);
      if state.players != map[] {
        Invariant.RosterIsValid(cfg, state);
      }
    }
  }

  lemma OneKey(players: Players)
    ensures |players| == 1 <==> exists p :: players.Keys == {p}
  {
    assert |players| == |players.Keys|;
    if |players.Keys| == 1 {
      var p :| p in players.Keys;
      assert |players.Keys - {p}| == 0;
      assert players.Keys == {p};
    }
  }

  /** Who has loaded in each phase of a valid room. */
  lemma LoadedByPhase(cfg: Config, s: Room)
    requires cfg.Valid() && Invariant.Valid(cfg, s)
    ensures var loaded := set p | p in s.players && s.players[p].loaded;
            && (Phase(s) == Waiting || Phase(s).Countdown? ==> loaded == {})
            && (Phase(s) == Loading && |s.players| >= MINIMUM_PLAYERS && s.gameplayGeneration < U64_MAX ==>
                  loaded < s.players.Keys)
            && (Phase(s) == Playing ==> loaded == s.players.Keys)
    ensures s.players == map[] ==> Phase(s) == Waiting
  {
    hide Invariant.Seated, Invariant.Queued, Invariant.Untouched;
    Invariant.PhaseMeaning(cfg, s);
    if Phase(s) == Loading && |s.players| >= MINIMUM_PLAYERS && s.gameplayGeneration < U64_MAX {
      assert !CanBeginGameplay(s);
      var p :| p in s.players && !s.players[p].loaded;
      assert p in s.players.Keys;
    }
  }

  /** Numbers frames for broadcast until the sequence space is exhausted. */
  method NumberFrames(frames: seq<Frame>, start: u64)
    returns (sent: seq<Update>, last: u64, failure: Option<MembershipError>)
    ensures sent == Numbered(frames, start) && last == start + |sent|
    ensures failure == if |sent| < |frames| then Some(GameplaySequenceExhausted) else None
  {
    sent, last, failure := [], start, None;
    assert frames[0..] == frames;
    for i := 0 to |frames|
      invariant failure.None? && last == start + i && |sent| == i
      invariant Numbered(frames, start) == sent + Numbered(frames[i..], last)
    {
      if last == U64_MAX {
        failure := Some(GameplaySequenceExhausted);
        return;
      }
      ghost var rest := frames[i..];
      last := last + 1;
      sent := sent + [GameFrame(last, ToBytes(frames[i]))];
      assert rest[1..] == frames[i + 1..];
    }
  }

  /** Takes complete rounds off the queues until one disagrees or none is left. */
  method SpendRounds(initial: Players) returns (desync: bool, players: Players)
    ensures var verdict := Judge(QueuesOf(initial));
            desync == verdict.desync && players == DropRounds(initial, verdict.rounds)
  {
    hide Agreeing, Judge, CompleteRounds;
    desync, players := false, initial;
    ghost var rounds := 0;
    StartConsensus(initial);
    while players != map[] && AllReported(players)
      invariant !desync && Agreeing(initial, rounds, players)
      decreases CompleteRounds(QueuesOf(initial)) - rounds
    {
      var first :| first in players;
      var expected := players[first].checksums[0];
      SpendRound(initial, rounds, players, first);
      desync := FrontsDiffer(players, expected);
      players := PopFronts(players);
      rounds := rounds + 1;
      if desync {
        return;
      }
    }
    AllRoundsSpent(initial, rounds, players);
  }

  /** `rounds` rounds of agreeing checksums have been taken off the queues of `initial`. */
  ghost predicate Agreeing(initial: Players, rounds: nat, players: Players)
  {
    var q := QueuesOf(initial);
    && HasRounds(q, rounds)
    && players == DropRounds(initial, rounds)
    && AgreedUpTo(q, rounds)
    && (initial == map[] ==> rounds == 0)
  }

  lemma StartConsensus(players: Players)
    ensures Agreeing(players, 0, players)
  {
    forall p | p in players ensures DropRounds(players, 0)[p] == players[p] {
      assert players[p].checksums[0..] == players[p].checksums;
    }
  }

  lemma SpendRound(initial: Players, rounds: nat, players: Players, first: u8)
    requires Agreeing(initial, rounds, players) && AllReported(players) && first in players
    ensures rounds < CompleteRounds(QueuesOf(initial))
    ensures if FrontsDiffer(players, players[first].checksums[0])
            then Judge(QueuesOf(initial)) == Verdict(true, rounds + 1)
                 && PopFronts(players) == DropRounds(initial, rounds + 1)
            else Agreeing(initial, rounds + 1, PopFronts(players))
  {
    OneMoreRound(initial, rounds, first);
    var q := QueuesOf(initial);
    if Disagree(q, rounds) {
      JudgeUnique(q, Verdict(true, rounds + 1));
    }
  }

  lemma OneMoreRound(initial: Players, rounds: nat, first: u8)
    requires HasRounds(QueuesOf(initial), rounds)
    requires var players := DropRounds(initial, rounds); AllReported(players) && first in players
    ensures HasRounds(QueuesOf(initial), rounds + 1)
    ensures rounds < CompleteRounds(QueuesOf(initial))
    ensures var players := DropRounds(initial, rounds);
            && PopFronts(players) == DropRounds(initial, rounds + 1)
            && (FrontsDiffer(players, players[first].checksums[0]) <==> Disagree(QueuesOf(initial), rounds))
  {
    var q := QueuesOf(initial);
    var players := DropRounds(initial, rounds);
    forall p | p in q ensures |q[p]| >= rounds + 1 && players[p].checksums[0] == q[p][rounds] {
      assert q[p] == initial[p].checksums;
      assert players[p].checksums == initial[p].checksums[rounds..];
    }
    var shortest :| shortest in q && |q[shortest]| == CompleteRounds(q);
    PopAfterDrop(initial, rounds);
    if Disagree(q, rounds) {
      var a, b :| a in q && b in q && q[a][rounds] != q[b][rounds];
      assert q[a][rounds] != q[first][rounds] || q[b][rounds] != q[first][rounds];
    }
  }

  lemma PopAfterDrop(initial: Players, rounds: nat)
    requires HasRounds(QueuesOf(initial), rounds + 1)
    ensures AllReported(DropRounds(initial, rounds))
    ensures PopFronts(DropRounds(initial, rounds)) == DropRounds(initial, rounds + 1)
  {
    forall p | p in initial
      ensures |initial[p].checksums| > rounds
      ensures initial[p].checksums[rounds + 1..] == initial[p].checksums[rounds..][1..]
    {
      assert QueuesOf(initial)[p] == initial[p].checksums;
    }
  }

  lemma AllRoundsSpent(initial: Players, rounds: nat, players: Players)
    requires Agreeing(initial, rounds, players)
    requires players == map[] || !AllReported(players)
    ensures Judge(QueuesOf(initial)) == Verdict(false, rounds)
    ensures players == DropRounds(initial, Judge(QueuesOf(initial)).rounds)
  {
    var q := QueuesOf(initial);
    if initial != map[] {
      assert players.Keys == initial.Keys;
      var p :| p in initial && players[p].checksums == [];
      assert |q[p]| == rounds;
      var shortest :| shortest in q && |q[shortest]| == CompleteRounds(q);
    }
    JudgeUnique(q, Verdict(false, rounds));
  }
}
