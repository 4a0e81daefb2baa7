/**
 Progress over worlds: what readiness, start requests, loading reports and woken tasks bring about, in any order
 the players choose.
 */
module Progress {
  import opened Bytes
  import opened Text
  import opened Frames
  import opened Actions
  import opened Batching
  import opened Rosters
  import opened Consensus
  import opened RoomModel
  import opened RoomInvariant
  import opened Server
  import opened Refinement
  import opened Timers
  import opened Answers
  import opened GameFlow
  import Tasks

  /** What a call that has taken place leaves behind. */
  lemma CallMoves(cfg: Config, w: World, step: Step)
    requires Enabled(w, step) && !step.FlushStep? && !step.WakeStep?
    ensures var e, w' := CallEffect(cfg, w.room, step), Next(cfg, w, step);
            && w'.room == e.room && w'.log == w.log + e.sent && w'.tasks == w.tasks + Spawned(e.tail, cfg)
            && (!e.tail.Send? ==> w'.inflight == w.inflight)
  {
    hide CallEffect, CallEvents, Remember;
  }

  /** Each of these players once. */
  predicate Lists(order: seq<u8>, ids: set<u8>)
  {
    && (forall p: u8 :: p in order <==> p in ids)
    && forall i, j | 0 <= i < j < |order| :: order[i] != order[j]
  }

  lemma ListsRest(order: seq<u8>, ids: set<u8>)
    requires Lists(order, ids) && order != []
    ensures order[0] in ids && Lists(order[1..], ids - {order[0]})
    ensures |order| == 1 <==> ids == {order[0]}
  {
    var rest := order[1..];
    forall p: u8 ensures p in rest <==> p in ids - {order[0]} {
      if p in rest {
        var i :| 0 <= i < |rest| && rest[i] == p;
        assert order[i + 1] == p && p in order;
      }
      if p in ids - {order[0]} {
        var i :| 0 <= i < |order| && order[i] == p;
        assert rest[i - 1] == p;
      }
    }
    if |order| > 1 {
      assert order[1] in order && order[1] != order[0];
    }
  }

  /** Nobody of them still owes a send. */
  predicate Idle(w: World, order: seq<u8>)
  {
    forall p | p in order && p in w.room.players :: w.room.players[p].session !in w.inflight
  }

  lemma RunFirst(cfg: Config, w: World, step: Step, rest: seq<Step>)
    ensures Run(cfg, w, [step] + rest) == Run(cfg, Next(cfg, w, step), rest)
  {
    hide Run, Next;
    RunAppend(cfg, w, [step], rest);
    RunOne(cfg, w, step);
  }

  // Loading.

  function Unloaded(s: Room): (ids: set<u8>)
  {
    set p | p in s.players && !s.players[p].loaded
  }

  /** The loading reports of the listed players. */
  function LoadingReports(players: Players, order: seq<u8>): (steps: seq<Step>)
    requires forall p | p in order :: p in players
  {
    if order == [] then []
    else [LoadedStep(order[0], players[order[0]].session)] + LoadingReports(players, order[1..])
  }

  function Confirmations(order: seq<u8>): (sent: seq<Update>)
  {
    if order == [] then [] else [PlayerLoaded(order[0])] + Confirmations(order[1..])
  }

  lemma {:induction false} SameReports(a: Players, b: Players, order: seq<u8>)
    requires SamePeople(a, b) && forall p | p in order :: p in a
    ensures LoadingReports(a, order) == LoadingReports(b, order)
  {
    if order != [] {
      SameReports(a, b, order[1..]);
    }
  }

  /** A game in which somebody still loads, and that can begin once everybody has. */
  predicate Loads(cfg: Config, w: World, order: seq<u8>)
    requires cfg.Valid()
  {
    && Sound(cfg, w) && Phase(w.room) == Loading && |w.room.players| >= 2 && w.room.gameplayGeneration < U64_MAX
    && Lists(order, Unloaded(w.room)) && Idle(w, order)
  }

  lemma LoadingWaitsForSomebody(cfg: Config, w: World, order: seq<u8>)
    requires cfg.Valid() && Loads(cfg, w, order)
    ensures order != []
  {
    hide Honest, Tasks.Issued, Tasks.InStep, Seated, Queued, Untouched;
    assert !CanBeginGameplay(w.room);
    var p :| p in w.room.players && !w.room.players[p].loaded;
    assert p in Unloaded(w.room);
  }

  /** One report of several: it is broadcast, and the game waits for the others. */
  lemma OneLoads(cfg: Config, w: World, order: seq<u8>)
    requires cfg.Valid() && Loads(cfg, w, order) && |order| >= 2
    ensures order[0] in w.room.players
    ensures var w' := Next(cfg, w, LoadedStep(order[0], w.room.players[order[0]].session));
            && Loads(cfg, w', order[1..]) && w'.log == w.log + [PlayerLoaded(order[0])]
            && SamePeople(w.room.players, w'.room.players)
  {
    hide Valid, Honest, Tasks.Issued, Tasks.InStep, Next, CallEffect, GameBegins, Abs;
    var s, p := w.room, order[0];
    ListsRest(order, Unloaded(s));
    var step := LoadedStep(p, s.players[p].session);
    LoadedIsAnswered(cfg, s, p, s.players[p].session);
    CallMoves(cfg, w, step);
    StepSimulates(cfg, w, step);
    assert order[1] in Unloaded(s);
    assert !OthersLoaded(s, p);
    var w' := Next(cfg, w, step);
    assert Unloaded(w'.room) == Unloaded(s) - {p};
    PeopleCount(s.players, w'.room.players);
  }

  /** The last report: it is broadcast, and the game is on. */
  lemma LastLoads(cfg: Config, w: World, p: u8)
    requires cfg.Valid() && Loads(cfg, w, [p])
    ensures p in w.room.players
    ensures var w' := Next(cfg, w, LoadedStep(p, w.room.players[p].session));
            && w'.log == w.log + [PlayerLoaded(p)] && Phase(w'.room) == Playing
            && SamePeople(w.room.players, w'.room.players)
            && |w'.tasks| == |w.tasks| + 1 && Plays(w'.room, w'.tasks[|w.tasks|])
  {
    hide Valid, Honest, Tasks.Issued, Tasks.InStep, Next, CallEffect, Abs;
    var s := w.room;
    ListsRest([p], Unloaded(s));
    var step := LoadedStep(p, s.players[p].session);
    LoadedIsAnswered(cfg, s, p, s.players[p].session);
    CallMoves(cfg, w, step);
    forall q | q in s.players && q != p ensures s.players[q].loaded {
      assert q !in Unloaded(s);
    }
  }

  /**
   Whatever the order in which the missing players report that they have loaded, exactly these reports are
   broadcast and the game is on, with an actor of its own.
   */
  lemma {:induction false} LoadingReachesPlaying(cfg: Config, w: World, order: seq<u8>)
    requires cfg.Valid() && Loads(cfg, w, order)
    ensures forall p | p in order :: p in w.room.players
    ensures var w' := Run(cfg, w, LoadingReports(w.room.players, order));
            && w'.log == w.log + Confirmations(order) && Phase(w'.room) == Playing
            && SamePeople(w.room.players, w'.room.players)
            && exists i | 0 <= i < |w'.tasks| :: Plays(w'.room, w'.tasks[i])
    decreases |order|
  {
    hide Loads, Next, Run, Plays, Phase;
    LoadingWaitsForSomebody(cfg, w, order);
    ListedAreHere(cfg, w, order);
    var players := w.room.players;
    var step := LoadedStep(order[0], players[order[0]].session);
    RunFirst(cfg, w, step, LoadingReports(players, order[1..]));
    var w1 := Next(cfg, w, step);
    if |order| == 1 {
      assert order == [order[0]] && order[1..] == [];
      LastLoads(cfg, w, order[0]);
      RunNothing(cfg, w1);
    } else {
      OneLoads(cfg, w, order);
      LoadingReachesPlaying(cfg, w1, order[1..]);
      SameReports(players, w1.room.players, order[1..]);
      assert w.log + ([PlayerLoaded(order[0])] + Confirmations(order[1..])) == w1.log + Confirmations(order[1..]);
    }
  }

  lemma ListedAreHere(cfg: Config, w: World, order: seq<u8>)
    requires cfg.Valid() && Loads(cfg, w, order)
    ensures forall p | p in order :: p in w.room.players
  {
    hide Sound;
  }

  lemma RunNothing(cfg: Config, w: World)
    ensures Run(cfg, w, []) == w
  {
  }

  // Starting.

  function Unready(s: Room): (ids: set<u8>)
  {
    set p | p in s.players && !s.players[p].ready
  }

  function ReadyCalls(players: Players, order: seq<u8>): (steps: seq<Step>)
    requires forall p | p in order :: p in players
  {
    if order == [] then []
    else [ReadyStep(order[0], players[order[0]].session)] + ReadyCalls(players, order[1..])
  }

  lemma {:induction false} SameReadyCalls(a: Players, b: Players, order: seq<u8>)
    requires SamePeople(a, b) && forall p | p in order :: p in a
    ensures ReadyCalls(a, order) == ReadyCalls(b, order)
  {
    if order != [] {
      SameReadyCalls(a, b, order[1..]);
    }
  }

  /** A waiting room in which exactly the listed players are still to become ready. */
  predicate Waits(cfg: Config, w: World, order: seq<u8>)
    requires cfg.Valid()
  {
    && Sound(cfg, w) && Phase(w.room) == Waiting && w.room.countdownGeneration < U64_MAX
    && Lists(order, Unready(w.room)) && Idle(w, order)
  }

  /** It is full, or a start has been asked for. */
  predicate Due(cfg: Config, s: Room)
  {
    |s.players| == cfg.maximum || (s.manualStart && |s.players| >= 2)
  }

  /** The countdown has just begun, and a task counts it down. */
  predicate JustBegun(cfg: Config, w: World, w': World)
  {
    && w'.log == w.log + [CountdownUpdate(cfg.initialSeconds)] && Phase(w'.room) == Countdown(cfg.initialSeconds)
    && SamePeople(w.room.players, w'.room.players)
    && exists i | 0 <= i < |w'.tasks| :: CountsDown(w'.room, w'.tasks[i])
  }

  lemma ListedWait(cfg: Config, w: World, order: seq<u8>)
    requires cfg.Valid() && Waits(cfg, w, order)
    ensures forall p | p in order :: p in w.room.players && !w.room.players[p].ready
  {
    hide Sound;
  }

  lemma OneBecomesReady(cfg: Config, w: World, order: seq<u8>)
    requires cfg.Valid() && Waits(cfg, w, order) && Due(cfg, w.room) && |order| >= 2
    ensures order[0] in w.room.players
    ensures var w' := Next(cfg, w, ReadyStep(order[0], w.room.players[order[0]].session));
            && Waits(cfg, w', order[1..]) && Due(cfg, w'.room) && w'.log == w.log
            && SamePeople(w.room.players, w'.room.players)
  {
    hide Valid, Honest, Tasks.Issued, Tasks.InStep, Next, CallEffect, CountdownBegins, Abs;
    var s, p := w.room, order[0];
    ListsRest(order, Unready(s));
    var step := ReadyStep(p, s.players[p].session);
    ReadyIsAnswered(cfg, s, p, s.players[p].session);
    CallMoves(cfg, w, step);
    StepSimulates(cfg, w, step);
    assert order[1] in Unready(s);
    assert !OthersReady(s, p);
    var w' := Next(cfg, w, step);
    assert Unready(w'.room) == Unready(s) - {p};
    PeopleCount(s.players, w'.room.players);
  }

  lemma LastBecomesReady(cfg: Config, w: World, p: u8)
    requires cfg.Valid() && Waits(cfg, w, [p]) && Due(cfg, w.room)
    ensures p in w.room.players
    ensures JustBegun(cfg, w, Next(cfg, w, ReadyStep(p, w.room.players[p].session)))
  {
    hide Valid, Honest, Tasks.Issued, Tasks.InStep, Next, CallEffect, Abs;
    var s := w.room;
    ListsRest([p], Unready(s));
    var step := ReadyStep(p, s.players[p].session);
    ReadyIsAnswered(cfg, s, p, s.players[p].session);
    CallMoves(cfg, w, step);
    forall q | q in s.players && q != p ensures s.players[q].ready {
      assert q !in Unready(s);
    }
    var w' := Next(cfg, w, step);
    assert CountsDown(w'.room, w'.tasks[|w.tasks|]);
  }

  /** In a full room, or once a start has been asked for, readiness of all the others begins the countdown. */
  lemma {:induction false} ReadinessReachesCountdown(cfg: Config, w: World, order: seq<u8>)
    requires cfg.Valid() && Waits(cfg, w, order) && Due(cfg, w.room) && order != []
    ensures forall p | p in order :: p in w.room.players
    ensures JustBegun(cfg, w, Run(cfg, w, ReadyCalls(w.room.players, order)))
    decreases |order|
  {
    hide Waits, Due, Next, Run, CountsDown, Phase;
    ListedWait(cfg, w, order);
    var players := w.room.players;
    var step := ReadyStep(order[0], players[order[0]].session);
    RunFirst(cfg, w, step, ReadyCalls(players, order[1..]));
    var w1 := Next(cfg, w, step);
    if |order| == 1 {
      assert order == [order[0]] && order[1..] == [];
      LastBecomesReady(cfg, w, order[0]);
      RunNothing(cfg, w1);
    } else {
      OneBecomesReady(cfg, w, order);
      ReadinessReachesCountdown(cfg, w1, order[1..]);
      SameReadyCalls(players, w1.room.players, order[1..]);
    }
  }

  /** A request that comes too early is remembered. */
  lemma RequestArms(cfg: Config, w: World, p: u8, order: seq<u8>)
    requires cfg.Valid() && Waits(cfg, w, order) && order != [] && |w.room.players| >= 2
    requires p in w.room.players && w.room.players[p].session !in w.inflight
    ensures var w' := Next(cfg, w, ManualStartStep(p, w.room.players[p].session));
            && Waits(cfg, w', order) && Due(cfg, w'.room) && w'.log == w.log && w'.room.players == w.room.players
  {
    hide Valid, Honest, Tasks.Issued, Tasks.InStep, Next, CallEffect, CountdownBegins, Abs;
    ListedWait(cfg, w, order);
    var step := ManualStartStep(p, w.room.players[p].session);
    assert order[0] in order;
    ManualStartIsAnswered(cfg, w.room, p, w.room.players[p].session);
    CallMoves(cfg, w, step);
    StepSimulates(cfg, w, step);
  }

  /**
   Two or more players, not all of them ready: a request to start, followed by readiness of everybody missing in
   whatever order, begins the countdown at its full time, as the only thing broadcast, with a task of its own.
   */
  lemma RequestReachesCountdown(cfg: Config, w: World, p: u8, order: seq<u8>)
    requires cfg.Valid() && Waits(cfg, w, order) && order != [] && |w.room.players| >= 2
    requires p in w.room.players && w.room.players[p].session !in w.inflight
    ensures forall q | q in order :: q in w.room.players
    ensures var players := w.room.players;
            JustBegun(cfg, w, Run(cfg, w, [ManualStartStep(p, players[p].session)] + ReadyCalls(players, order)))
  {
    hide Waits, Due, Next, Run, CountsDown, Phase;
    var players := w.room.players;
    ListedWait(cfg, w, order);
    RequestArms(cfg, w, p, order);
    var w1 := Next(cfg, w, ManualStartStep(p, players[p].session));
    ReadinessReachesCountdown(cfg, w1, order);
    RunFirst(cfg, w, ManualStartStep(p, players[p].session), ReadyCalls(players, order));
  }

  // Late sends.

  /** Chat that does not repeat the sender's last message reaches everybody; a repetition reaches nobody. */
  lemma ChatReachesEverybody(cfg: Config, w: World, p: u8, message: string, now: nat)
    requires p in w.room.players && w.room.players[p].session !in w.inflight && ValidChatMessage(message)
    ensures var session := w.room.players[p].session;
            var w' := Run(cfg, w, [ChatStep(p, session, message, now), FlushStep(session)]);
            && w'.log == (if Repeats(w.room.players[p], message, now) then w.log else w.log + [Chat(p, message)])
            && w'.inflight == w.inflight && p in w'.room.players
            && w'.room.players[p].lastChat ==
                 if Repeats(w.room.players[p], message, now) then w.room.players[p].lastChat
                 else Some(RecentChat(message, now))
  {
    hide Repeats, CallEvents, Remember, IsDuplicateChat, PublishChat;
    var session := w.room.players[p].session;
    ChatIsAnswered(cfg, w.room, p, session, message, now);
    RunTwo(cfg, w, ChatStep(p, session, message, now), FlushStep(session));
    assert w.log + [] == w.log;
  }

  /** A newcomer's roster, with everybody seated so far, reaches everybody. */
  lemma NewcomerIsAnnounced(cfg: Config, w: World, name: string)
    requires cfg.Valid() && Sound(cfg, w) && ValidPlayerName(name)
    requires CallEffect(cfg, w.room, JoinStep(name)).reply.Joined?
    ensures var e := CallEffect(cfg, w.room, JoinStep(name));
            var w' := Run(cfg, w, [JoinStep(name), FlushStep(e.reply.session)]);
            Seats(w.room, e, name) && w'.room == e.room && w'.log == w.log + [RosterUpdate(e.reply.roster)]
  {
    hide Seats, CallEvents, Remember, Valid, Honest, Join, Tasks.Issued, Tasks.InStep, ValidPlayerName;
    var e := CallEffect(cfg, w.room, JoinStep(name));
    JoinIsAnswered(cfg, w.room, name);
    RunTwo(cfg, w, JoinStep(name), FlushStep(e.reply.session));
    SeatsOwe(w.room, e, name);
    assert w.log + [] == w.log;
  }

  lemma SeatsOwe(s: Room, e: Effect, name: string)
    requires Seats(s, e, name)
    ensures e.reply.Joined? && e.tail == Send(RosterUpdate(e.reply.roster))
  {
    hide Phase, Listing;
  }

  // Woken tasks.

  /** A task that ends the game does so, for its cause, if a game is loading or playing; otherwise nothing happens. */
  lemma EndIsAnswered(cfg: Config, w: World, i: nat, cause: EndReason)
    requires cfg.Valid() && Valid(cfg, w.room) && i < |w.tasks| && w.tasks[i] == Task(EndGameJob(cause), false)
    ensures var s, w' := w.room, Next(cfg, w, WakeStep(i));
            && w'.tasks == w.tasks[i := Task(EndGameJob(cause), true)]
            && if Phase(s) == Loading || Phase(s) == Playing then
                 && Phase(w'.room) == Ended && w'.log == w.log + [GameEnded(cause)]
                 && w'.room.players == s.players && w'.room.pending == []
                 && w'.room.gameplayGeneration == OneMore(s.gameplayGeneration)
               else w'.room == s && w'.log == w.log
  {
    hide Seated, Queued, Untouched, Served;
    assert w.log + [] == w.log;
    assert w.tasks[i := Task(EndGameJob(cause), true)] + [] == w.tasks[i := Task(EndGameJob(cause), true)];
  }

  /** The checksum that completes a disagreeing round ends the game as a desync as soon as its task is woken. */
  lemma DesyncEndsGame(cfg: Config, w: World, p: u8, session: u64, sequence: u64, checksum: u32)
    requires cfg.Valid() && Sound(cfg, w) && session !in w.inflight
    requires Countable(w.room, p, session, sequence) && Differ(WithReport(w.room, p, checksum))
    ensures var w' := Run(cfg, w, [KeepAliveStep(p, session, sequence, checksum), WakeStep(|w.tasks|)]);
            Phase(w'.room) == Ended && w'.log == w.log + [GameEnded(Desync)]
  {
    hide Next, Run, Differ, Valid, Honest, Tasks.Issued, Tasks.InStep, Abs;
    var step := KeepAliveStep(p, session, sequence, checksum);
    var w1 := Next(cfg, w, step);
    RunTwo(cfg, w, step, WakeStep(|w.tasks|));
    KeepAliveIsAnswered(cfg, w, p, session, sequence, checksum);
    StillPlaying(cfg, w, p, session, sequence, checksum);
    StepSimulates(cfg, w, step);
    EndIsAnswered(cfg, w1, |w.tasks|, Desync);
  }

  lemma StillPlaying(cfg: Config, w: World, p: u8, session: u64, sequence: u64, checksum: u32)
    ensures Phase(Next(cfg, w, KeepAliveStep(p, session, sequence, checksum)).room) == Phase(w.room)
  {
    hide Judge, DropRounds, QueuesOf, Remember;
  }

  /** The frame numbers left suffice for what is pending. */
  predicate NumbersSuffice(cfg: Config, s: Room)
    requires ValidActions(s.pending)
  {
    TickFramesCorrect(cfg.crc, cfg.incrementMs, s.pending);
    s.gameplaySequence + |TickFrames(cfg.crc, cfg.incrementMs, s.pending).value| <= U64_MAX
  }

  /**
   Waking the actor of a running game publishes everything pending and one increment of game time, and the actor
   plays on; when the frame numbers run out it hands over to a task that ends the game.
   */
  lemma TickIsAnswered(cfg: Config, w: World, i: nat)
    requires cfg.Valid() && Sound(cfg, w) && Phase(w.room) == Playing
    requires i < |w.tasks| && Plays(w.room, w.tasks[i])
    ensures ValidActions(w.room.pending)
    ensures var w' := Next(cfg, w, WakeStep(i));
            && w'.room.pending == [] && Phase(w'.room) == Playing && w'.room.players == w.room.players
            && if NumbersSuffice(cfg, w.room) then
                 && |w'.tasks| == |w.tasks| && Plays(w'.room, w'.tasks[i])
                 && w'.history.ticks == w.history.ticks + 1
                 && GameActions(cfg.crc, w'.log) == GameActions(cfg.crc, w.log) + w.room.pending
                 && GameTime(cfg.crc, w'.log) == GameTime(cfg.crc, w.log) + cfg.incrementMs
               else
                 w'.tasks == w.tasks[i := Task(w.tasks[i].job, true)] + [Task(EndGameJob(ProtocolError), false)]
  {
    hide Honest, Tasks.Issued, Tasks.InStep, Seated, Untouched, Served;
    hide TickFrames, Numbered, GameActions, GameTime, SlotEvents;
    var s := w.room;
    PlayingFlags(cfg, s);
    TickFramesCorrect(cfg.crc, cfg.incrementMs, s.pending);
    NumberedCount(TickFrames(cfg.crc, cfg.incrementMs, s.pending).value, s.gameplaySequence);
    PublishGrowth(cfg, s, cfg.incrementMs, w.log);
    Tasks.NoBegin(cfg, s, w.tasks[i].job);
  }
}
