/**
 Theorems about detached tasks over all runs: no two can act, a stale one never acts again, and no room is
 forgotten.
 */
module Timers {
  import opened Bytes
  import opened Text
  import opened Actions
  import opened Batching
  import opened Consensus
  import opened RoomModel
  import opened RoomInvariant
  import opened Server
  import opened Tasks
  import opened Refinement
  import Protocol

  /** The room still listens to this task. */
  predicate Heeded(s: Room, job: Job)
  {
    match job
    case CountdownJob(g, _) => CountdownMatches(s, g)
    case GameplayJob(g) => GameplayMatches(s, g)
    case LastPlayerJob(g) => LonePlayer(s, g)
    case EndGameJob(_) => s.started && !s.gameEnded
  }

  /** A task the room does not listen to neither changes the room, nor publishes, nor spawns; it just ends. */
  lemma UnheededIsInert(cfg: Config, s: Room, job: Job)
    requires !Heeded(s, job)
    ensures var r := WakeJob(cfg, s, job);
            r.room == s && r.sent == [] && r.spawned == [] && r.events == [] && r.task.done
  {
  }

  // At most one of each kind.

  /** Of all countdown tasks ever spawned at most one can act, and likewise of all gameplay actors. */
  lemma OnlyOneCanAct(cfg: Config, revision: u64, steps: seq<Step>, i: nat, j: nat)
    requires cfg.Valid() && revision >= 1
    requires var w := WorldAfter(cfg, revision, steps); i < j < |w.tasks|
    ensures var w := WorldAfter(cfg, revision, steps);
            var a, b := w.tasks[i].job, w.tasks[j].job;
            && (a.CountdownJob? && b.CountdownJob? ==> a.generation < b.generation && !Heeded(w.room, a))
            && (a.GameplayJob? && b.GameplayJob? ==> a.generation < b.generation && !Heeded(w.room, a))
  {
    hide Valid, Honest, WorldAfter, PublishPending, AllReady;
    ServerFollowsProtocol(cfg, revision, steps);
    var w := WorldAfter(cfg, revision, steps);
    assert Precedes(w.tasks[i].job, w.tasks[j].job);
    assert IssuedBy(w.room, w.tasks[j].job);
  }

  // Stale forever.

  /** The room has moved on from this task's generation; a timer's game may also just be over. */
  predicate Outdated(s: Room, job: Job)
  {
    match job
    case CountdownJob(g, _) => g <= s.countdownGeneration && !(s.countdownActive && s.countdownGeneration == g)
    case GameplayJob(g) => g <= s.gameplayGeneration && !(s.gameplayActive && s.gameplayGeneration == g)
    case LastPlayerJob(g) => g < U64_MAX && (g < s.gameplayGeneration || (g == s.gameplayGeneration && s.gameEnded))
    case EndGameJob(_) => false
  }

  /** A timer of the current gameplay generation times a started game of one player. */
  predicate TimedBy(s: Room, job: Job)
  {
    job.LastPlayerJob? ==>
      && job.generation <= s.gameplayGeneration
      && (job.generation == s.gameplayGeneration < U64_MAX ==> s.started && |s.players| == 1)
  }

  predicate AllTimed(s: Room, tasks: seq<Task>)
  {
    forall i | 0 <= i < |tasks| :: TimedBy(s, tasks[i].job)
  }

  /** A task that carries a generation, below the ceiling in the case of a timer. */
  predicate Aging(job: Job)
  {
    job.CountdownJob? || job.GameplayJob? || (job.LastPlayerJob? && job.generation < U64_MAX)
  }

  lemma UnheededIsOutdated(cfg: Config, s: Room, job: Job)
    requires cfg.Valid() && Valid(cfg, s) && IssuedBy(s, job) && TimedBy(s, job) && Aging(job)
    ensures Heeded(s, job) <==> !Outdated(s, job)
  {
    hide Seated, Queued, Untouched, Served;
  }

  /** Within one gameplay generation a lone player stays alone and an ended game stays ended. */
  predicate KeepsLone(s: Room, s': Room, tail: Tail)
  {
    && (s'.gameplayGeneration == s.gameplayGeneration < U64_MAX ==>
          && (s.started && |s.players| == 1 ==> s'.started && |s'.players| == 1)
          && (s.gameEnded ==> s'.gameEnded))
    && (tail.SpawnLastPlayerTimer? ==>
          tail.generation == s'.gameplayGeneration && s'.started && |s'.players| == 1)
  }

  lemma SamePeopleKeepLone(s: Room, s': Room, tail: Tail)
    requires s'.players.Keys == s.players.Keys && s'.started == s.started && s'.gameEnded == s.gameEnded
    requires !tail.SpawnLastPlayerTimer?
    ensures KeepsLone(s, s', tail)
  {
    PeopleCount(s.players, s'.players);
  }

  lemma JoinKeepsLone(cfg: Config, s: Room, name: string)
    ensures var e := Join(cfg, s, name); KeepsLone(s, e.room, e.tail)
  {
    hide LeastFree;
  }

  lemma RemoveKeepsLone(s: Room, before: Room, p: u8, reason: LeaveReason)
    requires p in s.players && s.players == before.players && s.started == before.started
    requires s.gameplayGeneration == before.gameplayGeneration && s.gameEnded == before.gameEnded
    ensures var e := Remove(s, p, reason); KeepsLone(before, e.room, e.tail)
  {
    hide AllLoaded, DepartureUpdates;
    assert |(s.players - {p}).Keys| == |s.players.Keys - {p}|;
  }

  lemma LeaveKeepsLone(cfg: Config, s: Room, p: u8, session: u64, reason: LeaveReason)
    ensures var e := Leave(cfg, s, p, session, reason); KeepsLone(s, e.room, e.tail)
  {
    hide TickFrames, Numbered, KeepsLone, Remove, Leave;
    if HasSession(s.players, p, session) {
      LeaveParts(cfg, s, p, session, reason);
      RemoveKeepsLone(Flushed(cfg, s).room, s, p, reason);
      SamePeopleKeepLone(s, Flushed(cfg, s).room, Nothing);
    } else {
      LeaveByStranger(cfg, s, p, session, reason);
      SamePeopleKeepLone(s, s, Nothing);
    }
  }

  lemma LoadedKeepsLone(s: Room, p: u8, session: u64)
    ensures var e := MarkLoaded(s, p, session); KeepsLone(s, e.room, e.tail)
  {
    hide AllLoaded, KeepsLone;
    var e := MarkLoaded(s, p, session);
    SamePeopleKeepLone(s, e.room, e.tail);
  }

  lemma CallKeepsLone(cfg: Config, s: Room, step: Step)
    requires !step.FlushStep? && !step.WakeStep?
    ensures var e := CallEffect(cfg, s, step); KeepsLone(s, e.room, e.tail)
  {
    hide KeepsLone, AllReady, LeastFree, IsDuplicateChat;
    hide SequenceError, Judge, CanStartOnRequest, CanStartAutomatically;
    var e := CallEffect(cfg, s, step);
    if step.LeaveStep? {
      LeaveKeepsLone(cfg, s, step.player, step.session, step.reason);
    } else if step.LoadedStep? {
      LoadedKeepsLone(s, step.player, step.session);
    } else if step.JoinStep? {
      JoinKeepsLone(cfg, s, step.name);
    } else {
      KeysKept(cfg, s, step);
      SamePeopleKeepLone(s, e.room, e.tail);
    }
  }

  lemma WakeKeepsLone(cfg: Config, s: Room, job: Job)
    ensures KeepsLone(s, WakeJob(cfg, s, job).room, Nothing)
  {
    hide TickFrames, Numbered, SlotEvents;
  }

  lemma TimedStays(s: Room, s': Room, tail: Tail, job: Job, job': Job)
    requires TimedBy(s, job) && SameJob(job, job') && KeepsLone(s, s', tail)
    requires s.gameplayGeneration <= s'.gameplayGeneration
    ensures TimedBy(s', job')
  {
  }

  lemma CallKeepsTimed(cfg: Config, w: World, step: Step)
    requires AllTimed(w.room, w.tasks) && !step.FlushStep? && !step.WakeStep?
    ensures var w' := Call(cfg, w, step); AllTimed(w'.room, w'.tasks)
  {
    hide CallEffect, CallEvents, Remember, Owed, KeepsTime, TimedBy;
    var e := CallEffect(cfg, w.room, step);
    CallAdvances(cfg, w.room, step);
    CallKeepsLone(cfg, w.room, step);
    var tasks' := w.tasks + Spawned(e.tail, cfg);
    forall i | 0 <= i < |tasks'| ensures TimedBy(e.room, tasks'[i].job) {
      if i < |w.tasks| {
        TimedStays(w.room, e.room, e.tail, w.tasks[i].job, w.tasks[i].job);
      } else {
        SpawnIsTimed(cfg, w.room, e.room, e.tail);
      }
    }
  }

  lemma SpawnIsTimed(cfg: Config, s: Room, s': Room, tail: Tail)
    requires KeepsLone(s, s', tail)
    ensures forall i | 0 <= i < |Spawned(tail, cfg)| :: TimedBy(s', Spawned(tail, cfg)[i].job)
  {
  }

  lemma StepKeepsTimed(cfg: Config, w: World, step: Step)
    requires AllTimed(w.room, w.tasks)
    ensures var w' := Next(cfg, w, step); AllTimed(w'.room, w'.tasks)
  {
    hide WakeJob, Call, KeepsLone, KeepsTime;
    if Enabled(w, step) && step.WakeStep? {
      var job := w.tasks[step.task].job;
      var r := WakeJob(cfg, w.room, job);
      WakeFollows(cfg, w.room, job);
      WakeKeepsLone(cfg, w.room, job);
      var tasks' := Next(cfg, w, step).tasks;
      forall i | 0 <= i < |tasks'| ensures TimedBy(r.room, tasks'[i].job) {
        if i < |w.tasks| {
          TimedStays(w.room, r.room, Nothing, w.tasks[i].job, tasks'[i].job);
        }
      }
    } else if Enabled(w, step) && !step.FlushStep? {
      CallKeepsTimed(cfg, w, step);
    }
  }

  /** In every run a timer of the current generation times a started game of one player. */
  lemma {:induction false} TimersTimeLonePlayers(cfg: Config, revision: u64, steps: seq<Step>)
    ensures var w := WorldAfter(cfg, revision, steps); AllTimed(w.room, w.tasks)
    decreases |steps|
  {
    hide AllTimed, Next;
    if steps == [] {
      NoTimers(Boot(revision));
    } else {
      var before := steps[..|steps| - 1];
      TimersTimeLonePlayers(cfg, revision, before);
      StepKeepsTimed(cfg, WorldAfter(cfg, revision, before), steps[|steps| - 1]);
    }
  }

  lemma NoTimers(w: World)
    requires w.tasks == []
    ensures AllTimed(w.room, w.tasks)
  {
  }

  lemma OutdatedStays(s: Room, s': Room, tail: Tail, job: Job, job': Job)
    requires Ages(s, s', tail) && KeepsLone(s, s', tail) && Outdated(s, job) && SameJob(job, job')
    ensures Outdated(s', job')
  {
  }

  /** A step keeps every task in its place and under its generation; what is outdated stays so. */
  lemma StepKeepsOutdated(cfg: Config, w: World, step: Step, i: nat)
    requires i < |w.tasks|
    ensures var w' := Next(cfg, w, step);
            && i < |w'.tasks| && SameJob(w.tasks[i].job, w'.tasks[i].job)
            && (Outdated(w.room, w.tasks[i].job) ==> Outdated(w'.room, w'.tasks[i].job))
  {
    hide CallEffect, WakeJob, Outdated, Ages, KeepsTime, KeepsLone, Remember, Owed;
    if Enabled(w, step) && Outdated(w.room, w.tasks[i].job) {
      if step.WakeStep? {
        WakeFollows(cfg, w.room, w.tasks[step.task].job);
        WakeKeepsLone(cfg, w.room, w.tasks[step.task].job);
        OutdatedStays(w.room, WakeJob(cfg, w.room, w.tasks[step.task].job).room, Nothing, w.tasks[i].job,
                      Next(cfg, w, step).tasks[i].job);
      } else if !step.FlushStep? {
        var e := CallEffect(cfg, w.room, step);
        CallAdvances(cfg, w.room, step);
        CallKeepsLone(cfg, w.room, step);
        OutdatedStays(w.room, e.room, e.tail, w.tasks[i].job, w.tasks[i].job);
      }
    }
    if Enabled(w, step) && step.WakeStep? {
      WakeFollows(cfg, w.room, w.tasks[step.task].job);
    }
  }

  lemma {:induction false} OutdatedForever(cfg: Config, w: World, steps: seq<Step>, i: nat)
    requires i < |w.tasks| && Outdated(w.room, w.tasks[i].job)
    ensures var w' := Run(cfg, w, steps);
            i < |w'.tasks| && SameJob(w.tasks[i].job, w'.tasks[i].job) && Outdated(w'.room, w'.tasks[i].job)
    decreases |steps|
  {
    hide Outdated, Next;
    if steps != [] {
      var before := steps[..|steps| - 1];
      OutdatedForever(cfg, w, before, i);
      StepKeepsOutdated(cfg, Run(cfg, w, before), steps[|steps| - 1], i);
    }
  }

  lemma {:induction false} RunAppend(cfg: Config, w: World, a: seq<Step>, b: seq<Step>)
    ensures Run(cfg, w, a + b) == Run(cfg, Run(cfg, w, a), b)
    decreases |b|
  {
    hide Next;
    if b == [] {
      assert a + b == a;
    } else {
      assert (a + b)[..|a + b| - 1] == a + b[..|b| - 1];
      RunAppend(cfg, w, a, b[..|b| - 1]);
    }
  }

  /**
   Once the room no longer listens to a countdown task, a gameplay actor or a last-player timer it never will
   again, whatever is cancelled, restarted, ended or reset in between. A timer's generation must lie below the
   ceiling, where generations stop being new.
   */
  lemma StaleForever(cfg: Config, revision: u64, steps: seq<Step>, more: seq<Step>, i: nat)
    requires cfg.Valid() && revision >= 1
    requires var w := WorldAfter(cfg, revision, steps);
             i < |w.tasks| && Aging(w.tasks[i].job) && !Heeded(w.room, w.tasks[i].job)
    ensures var w' := WorldAfter(cfg, revision, steps + more);
            i < |w'.tasks| && !Heeded(w'.room, w'.tasks[i].job)
  {
    hide Valid, Honest, Run, Heeded, Outdated, PublishPending, InStep, TimedBy;
    var w := WorldAfter(cfg, revision, steps);
    var w' := WorldAfter(cfg, revision, steps + more);
    ServerFollowsProtocol(cfg, revision, steps);
    ServerFollowsProtocol(cfg, revision, steps + more);
    TimersTimeLonePlayers(cfg, revision, steps);
    TimersTimeLonePlayers(cfg, revision, steps + more);
    UnheededIsOutdated(cfg, w.room, w.tasks[i].job);
    RunAppend(cfg, Boot(revision), steps, more);
    OutdatedForever(cfg, w, more, i);
    UnheededIsOutdated(cfg, w'.room, w'.tasks[i].job);
  }

  /** A loading game of two players at the ceiling of generations. */
  function CeilingRoom(): (s: Room)
  {
    var joined := Seat(Seat(FreshRoom(1), 1, "A"), 2, "B");
    Ready(Ready(joined, 1), 2).(started := true, gameplayGeneration := U64_MAX)
  }

  lemma CeilingRoomIsSeated(cfg: Config)
    requires cfg.Valid() && cfg.maximum >= 2
    ensures Seated(cfg, CeilingRoom())
  {
    hide Seated, ValidPlayerName;
    var empty := FreshRoom(1);
    FreshIsValid(cfg, 1);
    ShortNamesAreValid();
    SeatKeepsSeated(cfg, empty, 1, "A");
    SeatKeepsSeated(cfg, Seat(empty, 1, "A"), 2, "B");
    SamePeopleKeepsSeated(cfg, Seat(Seat(empty, 1, "A"), 2, "B"), CeilingRoom());
  }

  lemma ShortNamesAreValid()
    ensures ValidPlayerName("A") && ValidPlayerName("B") && "A" != "B"
  {
    assert "A"[0] != "B"[0];
  }

  lemma CeilingRoomPlayers()
    ensures var s := CeilingRoom();
            && s.players.Keys == {1, 2} && s.players[2].session == 2
            && !s.players[1].loaded && !s.players[2].loaded && AllReady(s.players)
  {
    assert CeilingRoom().players.Keys == {1, 2};
  }

  lemma CeilingRoomIsValid(cfg: Config)
    requires cfg.Valid() && cfg.maximum >= 2
    ensures Valid(cfg, CeilingRoom()) && Phase(CeilingRoom()) == Loading
  {
    hide Seated, AllReady;
    CeilingRoomIsSeated(cfg);
    CeilingRoomPlayers();
  }

  lemma OldTimerReturns(cfg: Config, s: Room, p: u8, q: u8, reason: LeaveReason)
    requires Phase(s) == Loading && s.players.Keys == {p, q} && p != q
    ensures var job := LastPlayerJob(s.gameplayGeneration);
            !Heeded(s, job) && Heeded(Leave(cfg, s, q, s.players[q].session, reason).room, job)
  {
    hide AllLoaded, DepartureUpdates;
    assert |s.players| == |s.players.Keys| == 2;
    assert (s.players - {q}).Keys == {p};
    assert |s.players - {q}| == |(s.players - {q}).Keys| == 1;
  }

  /**
   At the ceiling the code does not tell games apart: when one of the two players of a loading game leaves, the
   room listens to a timer of that generation that it did not listen to before. The room is valid, but built by
   hand: no run that reaches it is given.
   */
  lemma SaturatedTimerReturns(cfg: Config, reason: LeaveReason)
    requires cfg.Valid() && cfg.maximum >= 2
    ensures var s := CeilingRoom();
            && Valid(cfg, s)
            && !Heeded(s, LastPlayerJob(U64_MAX))
            && Heeded(Leave(cfg, s, 2, 2, reason).room, LastPlayerJob(U64_MAX))
  {
    hide Valid, Heeded, Leave;
    CeilingRoomPlayers();
    CeilingRoomIsValid(cfg);
    OldTimerReturns(cfg, CeilingRoom(), 1, 2, reason);
  }

  // Nobody is forgotten.

  predicate CountsDown(s: Room, t: Task)
  {
    !t.done && t.job.CountdownJob? && t.job.generation == s.countdownGeneration
  }

  predicate Plays(s: Room, t: Task)
  {
    !t.done && t.job == GameplayJob(s.gameplayGeneration)
  }

  predicate Times(s: Room, t: Task)
  {
    !t.done && t.job == LastPlayerJob(s.gameplayGeneration)
  }

  predicate Ends(t: Task)
  {
    !t.done && t.job.EndGameJob?
  }

  predicate Ending(tasks: seq<Task>)
  {
    exists i | 0 <= i < |tasks| :: Ends(tasks[i])
  }

  predicate Lone(s: Room)
  {
    s.started && !s.gameEnded && |s.players| == 1
  }

  predicate CountdownAttended(s: Room, tasks: seq<Task>)
  {
    s.countdownActive ==> exists i | 0 <= i < |tasks| :: CountsDown(s, tasks[i])
  }

  predicate GameAttended(s: Room, tasks: seq<Task>)
  {
    s.gameplayActive ==> Ending(tasks) || exists i | 0 <= i < |tasks| :: Plays(s, tasks[i])
  }

  predicate LoneAttended(s: Room, tasks: seq<Task>)
  {
    Lone(s) ==> Ending(tasks) || exists i | 0 <= i < |tasks| :: Times(s, tasks[i])
  }

  predicate DesyncAttended(s: Room, tasks: seq<Task>, desync: bool)
  {
    desync && s.started && !s.gameEnded ==> Ending(tasks)
  }

  /** Whatever the room is waiting for, some outstanding task will bring it about. */
  predicate Attended(w: World)
  {
    && CountdownAttended(w.room, w.tasks)
    && GameAttended(w.room, w.tasks)
    && LoneAttended(w.room, w.tasks)
    && DesyncAttended(w.room, w.tasks, w.history.desync)
  }

  // Calls only ever add tasks.

  /** A call leaves a lone player behind only together with a timer. */
  predicate LoneTimed(s: Room, s': Room, tail: Tail)
  {
    Lone(s') ==> tail == SpawnLastPlayerTimer(s'.gameplayGeneration)
                 || (Lone(s) && s'.gameplayGeneration == s.gameplayGeneration)
  }

  lemma RemoveTimes(s: Room, before: Room, p: u8, reason: LeaveReason)
    ensures var e := Remove(s, p, reason); LoneTimed(before, e.room, e.tail)
  {
    hide AllLoaded, DepartureUpdates;
  }

  lemma LeaveTimes(cfg: Config, s: Room, p: u8, session: u64, reason: LeaveReason)
    ensures var e := Leave(cfg, s, p, session, reason); LoneTimed(s, e.room, e.tail)
  {
    hide TickFrames, Numbered, LoneTimed, Remove, Leave;
    if HasSession(s.players, p, session) {
      LeaveParts(cfg, s, p, session, reason);
      RemoveTimes(Flushed(cfg, s).room, s, p, reason);
      StandingTimed(s, Flushed(cfg, s).room, Nothing);
    } else {
      LeaveByStranger(cfg, s, p, session, reason);
      StandingTimed(s, s, Nothing);
    }
  }

  lemma StandingTimed(s: Room, s': Room, tail: Tail)
    requires s'.players.Keys == s.players.Keys && s'.gameplayGeneration == s.gameplayGeneration
    requires s'.started == s.started && s'.gameEnded == s.gameEnded
    ensures LoneTimed(s, s', tail)
  {
    PeopleCount(s.players, s'.players);
  }

  lemma LoadedTimes(s: Room, p: u8, session: u64)
    ensures var e := MarkLoaded(s, p, session); LoneTimed(s, e.room, e.tail)
  {
    hide AllLoaded, LoneTimed;
    var e := MarkLoaded(s, p, session);
    PeopleCount(s.players, e.room.players);
    if e.tail.SpawnGameplay? {
      MoreThanOne(s, e.room, e.tail);
    } else {
      StandingTimed(s, e.room, e.tail);
    }
  }

  lemma MoreThanOne(s: Room, s': Room, tail: Tail)
    requires |s'.players| >= MINIMUM_PLAYERS || !s'.started
    ensures LoneTimed(s, s', tail)
  {
  }

  lemma CallTimes(cfg: Config, s: Room, step: Step)
    requires !step.FlushStep? && !step.WakeStep?
    ensures var e := CallEffect(cfg, s, step); LoneTimed(s, e.room, e.tail)
  {
    hide LoneTimed, AllReady, LeastFree, IsDuplicateChat;
    hide SequenceError, Judge, CanStartOnRequest, CanStartAutomatically;
    var e := CallEffect(cfg, s, step);
    if step.LeaveStep? {
      LeaveTimes(cfg, s, step.player, step.session, step.reason);
    } else if step.LoadedStep? {
      LoadedTimes(s, step.player, step.session);
    } else if step.JoinStep? {
      JoinTimes(cfg, s, step.name);
    } else {
      KeysKept(cfg, s, step);
      StandingTimed(s, e.room, e.tail);
    }
  }

  lemma JoinTimes(cfg: Config, s: Room, name: string)
    ensures var e := Join(cfg, s, name); LoneTimed(s, e.room, e.tail)
  {
    hide LeastFree;
  }

  /** Readiness, reports, chat and start requests leave everybody seated and the game as it is. */
  lemma KeysKept(cfg: Config, s: Room, step: Step)
    requires step.ReadyStep? || step.ActionStep? || step.KeepAliveStep? || step.ChatStep? || step.ManualStartStep?
    ensures var s' := CallEffect(cfg, s, step).room;
            && s'.players.Keys == s.players.Keys && s'.gameplayGeneration == s.gameplayGeneration
            && s'.started == s.started && s'.gameEnded == s.gameEnded
  {
    hide AllReady, IsDuplicateChat, SequenceError, Judge, CanStartOnRequest, CanStartAutomatically;
  }

  lemma AppendKeeps(s: Room, s': Room, tasks: seq<Task>, more: seq<Task>)
    ensures Ending(tasks) ==> Ending(tasks + more)
    ensures CountdownAttended(s, tasks) && s'.countdownGeneration == s.countdownGeneration && s.countdownActive
            ==> CountdownAttended(s', tasks + more)
    ensures GameAttended(s, tasks) && s'.gameplayGeneration == s.gameplayGeneration && s.gameplayActive
            ==> GameAttended(s', tasks + more)
    ensures LoneAttended(s, tasks) && s'.gameplayGeneration == s.gameplayGeneration && Lone(s)
            ==> LoneAttended(s', tasks + more)
  {
    assert forall i | 0 <= i < |tasks| :: (tasks + more)[i] == tasks[i];
  }

  lemma CallAttends(cfg: Config, s: Room, s': Room, tail: Tail, tasks: seq<Task>)
    requires CountdownAttended(s, tasks) && GameAttended(s, tasks) && LoneAttended(s, tasks)
    requires Ages(s, s', tail) && LoneTimed(s, s', tail)
    ensures var tasks' := tasks + Spawned(tail, cfg);
            CountdownAttended(s', tasks') && GameAttended(s', tasks') && LoneAttended(s', tasks')
  {
    hide CountdownAttended, GameAttended, LoneAttended, Ending, Lone;
    var more := Spawned(tail, cfg);
    AppendKeeps(s, s', tasks, more);
    SpawnAttends(cfg, s', tail, tasks);
    if !s'.countdownActive || !s'.gameplayActive || !Lone(s') {
      Unneeded(s', tasks + more);
    }
  }

  lemma Unneeded(s: Room, tasks: seq<Task>)
    ensures !s.countdownActive ==> CountdownAttended(s, tasks)
    ensures !s.gameplayActive ==> GameAttended(s, tasks)
    ensures !Lone(s) ==> LoneAttended(s, tasks)
  {
  }

  /** A new task attends to what it was spawned for. */
  lemma SpawnAttends(cfg: Config, s: Room, tail: Tail, tasks: seq<Task>)
    ensures var tasks' := tasks + Spawned(tail, cfg);
            && (tail == SpawnCountdown(s.countdownGeneration) ==> CountdownAttended(s, tasks'))
            && (tail == SpawnGameplay(s.gameplayGeneration) ==> GameAttended(s, tasks'))
            && (tail == SpawnLastPlayerTimer(s.gameplayGeneration) ==> LoneAttended(s, tasks'))
            && (tail.EndGame? ==> Ending(tasks'))
  {
    var tasks' := tasks + Spawned(tail, cfg);
    if Spawned(tail, cfg) != [] {
      assert tasks'[|tasks|] == Spawned(tail, cfg)[0];
    }
  }

  // A woken task stays, hands over, or is no longer needed.

  /** What waking task `t` leaves in its place. */
  predicate HandsOver(cfg: Config, s: Room, t: Task, r: Wakeup)
  {
    && (CountsDown(s, t) && r.room.countdownActive ==> CountsDown(r.room, r.task))
    && (Plays(s, t) && r.room.gameplayActive ==> Plays(r.room, r.task) || Ending(r.spawned))
    && (Times(s, t) && Lone(r.room) ==> Ending(r.spawned))
    && (Ends(t) ==> !r.room.gameplayActive && !Lone(r.room) && (r.room.started ==> r.room.gameEnded))
    && (r.room.started && !r.room.gameEnded ==> (s.started && !s.gameEnded) || r.events == [Protocol.Begin])
    && (Lone(r.room) ==> Lone(s) && r.room.gameplayGeneration == s.gameplayGeneration)
  }

  lemma OneEnding(t: Task)
    requires Ends(t)
    ensures Ending([t])
  {
    assert Ends([t][0]);
  }

  lemma CountdownNeedsTwo(cfg: Config, s: Room)
    requires cfg.Valid() && Valid(cfg, s) && cfg.maximum != 1
    ensures s.countdownActive ==> |s.players| >= MINIMUM_PLAYERS
  {
    hide GoodSeat, Distinct, Queued, Untouched;
    if s.countdownActive {
      assert |s.players| > 0;
    }
  }

  lemma WakeHandsOver(cfg: Config, s: Room, t: Task)
    requires cfg.Valid() && Valid(cfg, s) && Timely(s, t) && !t.done && cfg.maximum != 1
    ensures HandsOver(cfg, s, t, WakeJob(cfg, s, t.job))
  {
    hide Ending, Seated, Queued, Untouched, TickFrames, Numbered;
    hide FullRoomCounts, ArmedStartWaits, LoadingWaits, AllReady, AllLoaded, SlotEvents;
    CountdownNeedsTwo(cfg, s);
    match t.job
    case CountdownJob(g, remaining) =>
    case GameplayJob(g) => OneEnding(Task(EndGameJob(ProtocolError), false));
    case LastPlayerJob(g) => OneEnding(Task(EndGameJob(LastPlayerStanding), false));
    case EndGameJob(cause) =>
  }

  lemma EndingStays(tasks: seq<Task>, i: nat, t: Task, more: seq<Task>)
    requires i < |tasks|
    ensures Ending(tasks) ==> Ends(tasks[i]) || Ending(tasks[i := t] + more)
    ensures Ending(more) ==> Ending(tasks[i := t] + more)
  {
    var tasks' := tasks[i := t] + more;
    if Ending(tasks) && !Ends(tasks[i]) {
      var k :| 0 <= k < |tasks| && Ends(tasks[k]);
      assert tasks'[k] == tasks[k];
    }
    if Ending(more) {
      var k :| 0 <= k < |more| && Ends(more[k]);
      assert tasks'[|tasks| + k] == more[k];
    }
  }

  lemma WakeAttends(cfg: Config, s: Room, tasks: seq<Task>, i: nat, r: Wakeup, desync: bool)
    requires i < |tasks| && HandsOver(cfg, s, tasks[i], r) && Ages(s, r.room, Nothing)
    requires CountdownAttended(s, tasks) && GameAttended(s, tasks) && LoneAttended(s, tasks)
    requires DesyncAttended(s, tasks, desync)
    ensures var tasks' := tasks[i := r.task] + r.spawned;
            && CountdownAttended(r.room, tasks') && GameAttended(r.room, tasks') && LoneAttended(r.room, tasks')
            && DesyncAttended(r.room, tasks', desync && r.events != [Protocol.Begin])
  {
    hide Ending, Lone, Ends;
    var tasks' := tasks[i := r.task] + r.spawned;
    EndingStays(tasks, i, r.task, r.spawned);
    assert tasks'[i] == r.task;
    assert forall k | 0 <= k < |tasks| && k != i :: tasks'[k] == tasks[k];
  }

  lemma CallKeepsAttended(cfg: Config, w: World, step: Step)
    requires Attended(w) && !step.FlushStep? && !step.WakeStep?
    ensures Attended(Call(cfg, w, step))
  {
    hide CountdownAttended, GameAttended, LoneAttended, Ending, LoneTimed, CallEffect, CallEvents;
    var e := CallEffect(cfg, w.room, step);
    CallAdvances(cfg, w.room, step);
    CallTimes(cfg, w.room, step);
    CallAttends(cfg, w.room, e.room, e.tail, w.tasks);
    AppendKeeps(w.room, e.room, w.tasks, Spawned(e.tail, cfg));
    SpawnAttends(cfg, e.room, e.tail, w.tasks);
  }

  lemma StepKeepsAttended(cfg: Config, w: World, step: Step)
    requires cfg.Valid() && Sound(cfg, w) && cfg.maximum != 1 && Attended(w)
    ensures Attended(Next(cfg, w, step))
  {
    hide Valid, Honest, Issued, CountdownAttended, GameAttended, LoneAttended;
    hide DesyncAttended, HandsOver, Follows, WakeJob, Call, CallEffect;
    if Enabled(w, step) && step.WakeStep? {
      var r := WakeJob(cfg, w.room, w.tasks[step.task].job);
      WakeKeepsAges(cfg, w.room, w.tasks[step.task].job);
      WakeHandsOver(cfg, w.room, w.tasks[step.task]);
      WakeAttends(cfg, w.room, w.tasks, step.task, r, w.history.desync);
      DesyncForgotten(r.room, Next(cfg, w, step).tasks, Next(cfg, w, step).history.desync);
    } else if Enabled(w, step) && !step.FlushStep? {
      CallKeepsAttended(cfg, w, step);
    }
  }

  lemma DesyncForgotten(s: Room, tasks: seq<Task>, desync: bool)
    ensures !desync ==> DesyncAttended(s, tasks, desync)
  {
  }

  lemma WakeKeepsAges(cfg: Config, s: Room, job: Job)
    ensures Ages(s, WakeJob(cfg, s, job).room, Nothing)
  {
    hide WakeJob, Ages;
    WakeFollows(cfg, s, job);
  }

  /**
   No room is stuck: a running countdown has its task; a running game its actor, or its end is coming; a lone
   player of a started game a timer, or the end is coming; a detected desync ends the game.
   */
  lemma {:induction false} NobodyIsForgotten(cfg: Config, revision: u64, steps: seq<Step>)
    requires cfg.Valid() && revision >= 1 && cfg.maximum != 1
    ensures Attended(WorldAfter(cfg, revision, steps))
    ensures Served(cfg, WorldAfter(cfg, revision, steps).room)
    decreases |steps|
  {
    hide Sound, Attended, Next;
    if steps == [] {
      BootIsAttended(cfg, revision);
    } else {
      var before := steps[..|steps| - 1];
      NobodyIsForgotten(cfg, revision, before);
      ServerFollowsProtocol(cfg, revision, before);
      StepKeepsAttended(cfg, WorldAfter(cfg, revision, before), steps[|steps| - 1]);
    }
    ServerFollowsProtocol(cfg, revision, steps);
    SoundIsServed(cfg, WorldAfter(cfg, revision, steps));
  }

  lemma BootIsAttended(cfg: Config, revision: u64)
    ensures Attended(Boot(revision))
  {
  }

  lemma SoundIsServed(cfg: Config, w: World)
    requires cfg.Valid() && Sound(cfg, w)
    ensures Served(cfg, w.room)
  {
  }

  // A room with a single seat is the one exception.

  /** A single player, waiting for nothing but a countdown task. */
  predicate CountdownOnly(w: World)
  {
    |w.room.players| == 1 && !w.room.gameEnded && |w.tasks| == 1 && w.tasks[0].job.CountdownJob?
  }

  lemma WakeKeepsCountdownOnly(cfg: Config, w: World)
    requires CountdownOnly(w)
    ensures CountdownOnly(Next(cfg, w, WakeStep(0)))
  {
    hide AllReady;
  }

  lemma {:induction false} WakesKeepCountdownOnly(cfg: Config, w: World, remaining: nat)
    requires cfg.stepSeconds > 0 && CountdownOnly(w)
    ensures CountdownOnly(Run(cfg, w, Wakes(0, remaining, cfg.stepSeconds)))
    decreases remaining
  {
    hide Next, Run, CountdownOnly;
    RunOne(cfg, w, WakeStep(0));
    WakeKeepsCountdownOnly(cfg, w);
    if remaining > cfg.stepSeconds {
      var later := Wakes(0, remaining - cfg.stepSeconds, cfg.stepSeconds);
      WakesKeepCountdownOnly(cfg, Next(cfg, w, WakeStep(0)), remaining - cfg.stepSeconds);
      RunAppend(cfg, w, [WakeStep(0)], later);
    }
  }

  /** The room of one seat once its only player has joined. */
  function Alone(revision: u64): (s: Room)
  {
    Seat(FreshRoom(revision), 1, "A")
  }

  lemma JoinAlone(cfg: Config, revision: u64)
    requires cfg.maximum == 1
    ensures var w := Next(cfg, Boot(revision), JoinStep("A"));
            && w.room == Alone(revision) && w.tasks == [] && 1 in w.inflight && w.inflight.Keys == {1}
  {
    assert ValidPlayerName("A") by {
      assert Utf8("A") == Utf8Char('A') + Utf8("");
    }
    assert LeastFree({}, 1, 1) == Some(1);
  }

  lemma ReadyAlone(cfg: Config, w: World, revision: u64)
    requires cfg.Valid() && cfg.maximum == 1 && w.room == Alone(revision) && w.tasks == [] && w.inflight == map[]
    ensures var w' := Next(cfg, w, ReadyStep(1, 1));
            && CountdownOnly(w') && w'.room.countdownActive && CountsDown(w'.room, w'.tasks[0])
            && w'.tasks[0].job.remaining == cfg.initialSeconds
  {
    var s := Ready(w.room, 1);
    assert |s.players| == 1 && AllReady(s.players);
  }

  /** Joining, announcing and becoming ready leaves nothing but a countdown running. */
  lemma CountdownAlone(cfg: Config, revision: u64)
    requires cfg.Valid() && cfg.maximum == 1 && revision >= 1
    ensures var w := WorldAfter(cfg, revision, [JoinStep("A"), FlushStep(1)] + [ReadyStep(1, 1)]);
            && Sound(cfg, w) && CountdownOnly(w) && w.room.countdownActive && CountsDown(w.room, w.tasks[0])
            && w.tasks[0].job.remaining == cfg.initialSeconds
  {
    hide Next, Run, Sound, Alone, CountdownOnly, CountsDown;
    var w1 := Next(cfg, Boot(revision), JoinStep("A"));
    var w2 := Next(cfg, w1, FlushStep(1));
    JoinAlone(cfg, revision);
    FlushAlone(cfg, w1, revision);
    ReadyAlone(cfg, w2, revision);
    RunTwo(cfg, Boot(revision), JoinStep("A"), FlushStep(1));
    RunAppend(cfg, Boot(revision), [JoinStep("A"), FlushStep(1)], [ReadyStep(1, 1)]);
    RunOne(cfg, w2, ReadyStep(1, 1));
    ServerFollowsProtocol(cfg, revision, [JoinStep("A"), FlushStep(1)] + [ReadyStep(1, 1)]);
  }

  /** The only seat's player starts alone, and nobody ever ends that game. */
  lemma SingleSeatIsForgotten(cfg: Config, revision: u64)
    requires cfg.Valid() && cfg.maximum == 1 && revision >= 1
    ensures exists steps :: !Attended(WorldAfter(cfg, revision, steps))
  {
    hide Run, Sound, Attended;
    var steps := [JoinStep("A"), FlushStep(1)] + [ReadyStep(1, 1)];
    var wakes := Wakes(0, cfg.initialSeconds, cfg.stepSeconds);
    CountdownAlone(cfg, revision);
    CountdownReachesStart(cfg, WorldAfter(cfg, revision, steps), 0);
    WakesKeepCountdownOnly(cfg, WorldAfter(cfg, revision, steps), cfg.initialSeconds);
    RunAppend(cfg, Boot(revision), steps, wakes);
    NobodyAttends(WorldAfter(cfg, revision, steps + wakes));
  }

  lemma FlushAlone(cfg: Config, w: World, revision: u64)
    requires w.room == Alone(revision) && w.tasks == [] && 1 in w.inflight && w.inflight.Keys == {1}
    ensures var w' := Next(cfg, w, FlushStep(1)); w'.room == Alone(revision) && w'.tasks == [] && w'.inflight == map[]
  {
    hide Alone;
    assert (w.inflight - {1}).Keys == {};
  }

  lemma NobodyAttends(w: World)
    requires CountdownOnly(w) && w.room.started
    ensures !Attended(w)
  {
  }

  /** Exactly the rooms with one seat can leave a player waiting forever. */
  lemma ForgottenIffSingleSeat(cfg: Config, revision: u64)
    requires cfg.Valid() && revision >= 1
    ensures (forall steps :: Attended(WorldAfter(cfg, revision, steps))) <==> cfg.maximum != 1
  {
    hide Attended, WorldAfter;
    if cfg.maximum == 1 {
      SingleSeatIsForgotten(cfg, revision);
    } else {
      forall steps ensures Attended(WorldAfter(cfg, revision, steps)) {
        NobodyIsForgotten(cfg, revision, steps);
      }
    }
  }

  predicate FullAndReady(cfg: Config, s: Room)
  {
    |s.players| == cfg.maximum && s.players != map[] && AllReady(s.players)
  }

  /** What the room waits for, spelled out: somebody who has not loaded, a running countdown, somebody not ready. */
  lemma WhoIsAwaited(cfg: Config, revision: u64, steps: seq<Step>)
    requires cfg.Valid() && revision >= 1
    ensures var s := WorldAfter(cfg, revision, steps).room;
            Phase(s) == Loading && |s.players| >= MINIMUM_PLAYERS && s.gameplayGeneration < U64_MAX ==>
              exists p | p in s.players :: !s.players[p].loaded
    ensures var s := WorldAfter(cfg, revision, steps).room;
            FullAndReady(cfg, s) && !s.started && s.countdownGeneration < U64_MAX ==> s.countdownActive
    ensures var s := WorldAfter(cfg, revision, steps).room;
            s.manualStart && s.countdownGeneration < U64_MAX ==>
              |s.players| >= MINIMUM_PLAYERS && exists p | p in s.players :: !s.players[p].ready
  {
    hide WorldAfter, Honest, Issued, InStep, Seated, Queued, Untouched, Consistent;
    ServerFollowsProtocol(cfg, revision, steps);
  }

  // Progress.

  /** Waking one countdown task until its time is up. */
  function Wakes(i: nat, remaining: nat, step: u8): (steps: seq<Step>)
    requires step > 0
  {
    if remaining <= step then [WakeStep(i)] else [WakeStep(i)] + Wakes(i, remaining - step, step)
  }

  /** What the rest of a countdown broadcasts. */
  function Rest(remaining: nat, step: u8): (updates: seq<Update>)
    requires step > 0 && remaining <= 0xFF
  {
    if remaining <= step then [Start] else [CountdownUpdate(remaining - step)] + Rest(remaining - step, step)
  }

  lemma WakeCountdown(cfg: Config, w: World, i: nat)
    requires cfg.Valid() && Sound(cfg, w) && w.room.countdownActive
    requires i < |w.tasks| && CountsDown(w.room, w.tasks[i])
    ensures w.room.countdownRemaining == Some(w.tasks[i].job.remaining)
    ensures var remaining := w.tasks[i].job.remaining;
            var w' := Next(cfg, w, WakeStep(i));
            if remaining <= cfg.stepSeconds then w'.room.started && w'.log == w.log + [Start]
            else
              && w'.room.countdownActive && w'.log == w.log + [CountdownUpdate(remaining - cfg.stepSeconds)]
              && |w'.tasks| == |w.tasks| && CountsDown(w'.room, w'.tasks[i])
              && w'.tasks[i].job.remaining == remaining - cfg.stepSeconds
  {
    hide Honest, Issued, Seated, Queued, Untouched, Served, AllReady;
    assert Timely(w.room, w.tasks[i]);
    assert CountdownMatches(w.room, w.tasks[i].job.generation);
  }

  lemma RunOne(cfg: Config, w: World, step: Step)
    ensures Run(cfg, w, [step]) == Next(cfg, w, step)
  {
    hide Next;
    assert [step][..0] == [];
    assert Run(cfg, w, []) == w;
  }

  /** Left to its timer, a running countdown announces every remaining step and then starts the game. */
  lemma {:induction false} CountdownReachesStart(cfg: Config, w: World, i: nat)
    requires cfg.Valid() && Sound(cfg, w) && w.room.countdownActive
    requires i < |w.tasks| && CountsDown(w.room, w.tasks[i])
    ensures var remaining := w.tasks[i].job.remaining;
            var w' := Run(cfg, w, Wakes(i, remaining, cfg.stepSeconds));
            w'.room.started && w'.log == w.log + Rest(remaining, cfg.stepSeconds)
    decreases w.tasks[i].job.remaining
  {
    hide Sound, Next, Run;
    var remaining := w.tasks[i].job.remaining;
    WakeCountdown(cfg, w, i);
    RunOne(cfg, w, WakeStep(i));
    if remaining > cfg.stepSeconds {
      var w1 := Next(cfg, w, WakeStep(i));
      StepSimulates(cfg, w, WakeStep(i));
      CountdownReachesStart(cfg, w1, i);
      var later := Wakes(i, remaining - cfg.stepSeconds, cfg.stepSeconds);
      RunAppend(cfg, w, [WakeStep(i)], later);
      assert w.log + ([CountdownUpdate(remaining - cfg.stepSeconds)]
          + Rest(remaining - cfg.stepSeconds, cfg.stepSeconds))
          == w1.log + Rest(remaining - cfg.stepSeconds, cfg.stepSeconds);
    }
  }

  /** The game of `w` is over in `w'`, and exactly that has been broadcast. */
  predicate EndsGame(w: World, w': World, cause: EndReason)
  {
    w'.room.gameEnded && !w'.room.gameplayActive && w'.log == w.log + [GameEnded(cause)]
  }

  lemma SomebodyAwaits(w: World)
    requires Attended(w) && Lone(w.room)
    ensures exists i | 0 <= i < |w.tasks| :: Ends(w.tasks[i]) || Times(w.room, w.tasks[i])
  {
    hide CountdownAttended, GameAttended, DesyncAttended, Lone, Ends, Times;
    assert LoneAttended(w.room, w.tasks);
    if Ending(w.tasks) {
      var k :| 0 <= k < |w.tasks| && Ends(w.tasks[k]);
    } else {
      var k :| 0 <= k < |w.tasks| && Times(w.room, w.tasks[k]);
    }
  }

  lemma TimerEnds(cfg: Config, w: World, i: nat)
    requires Lone(w.room) && i < |w.tasks| && Times(w.room, w.tasks[i])
    ensures EndsGame(w, Run(cfg, w, [WakeStep(i), WakeStep(|w.tasks|)]), LastPlayerStanding)
  {
    hide Lone, Ends, Times, Next, Run;
    TimerHandsOver(cfg, w, i);
    EndJobEnds(cfg, Next(cfg, w, WakeStep(i)), |w.tasks|);
    RunTwo(cfg, w, WakeStep(i), WakeStep(|w.tasks|));
  }

  lemma RunTwo(cfg: Config, w: World, a: Step, b: Step)
    ensures Run(cfg, w, [a, b]) == Next(cfg, Next(cfg, w, a), b)
  {
    hide Next, Run;
    RunOne(cfg, w, a);
    RunOne(cfg, Next(cfg, w, a), b);
    RunAppend(cfg, w, [a], [b]);
    assert [a] + [b] == [a, b];
  }

  lemma EndJobEnds(cfg: Config, w: World, i: nat)
    requires i < |w.tasks| && Ends(w.tasks[i]) && Lone(w.room)
    ensures EndsGame(w, Next(cfg, w, WakeStep(i)), w.tasks[i].job.cause)
  {
  }

  /** The timer's check succeeds, and the task it turns into is next in line. */
  lemma TimerHandsOver(cfg: Config, w: World, i: nat)
    requires i < |w.tasks| && Times(w.room, w.tasks[i]) && Lone(w.room)
    ensures var w' := Next(cfg, w, WakeStep(i));
            && w'.room == w.room && w'.log == w.log
            && |w'.tasks| == |w.tasks| + 1 && w'.tasks[|w.tasks|] == Task(EndGameJob(LastPlayerStanding), false)
            && Ends(w'.tasks[|w.tasks|])
  {
  }

  /**
   In every run a lone player of a started game is waited for by some task. Whichever of the announced ends is
   woken ends the game at once; whichever timer of this game is woken hands over to a task that does.
   */
  lemma LonePlayerNeverWaitsForever(cfg: Config, revision: u64, steps: seq<Step>)
    requires cfg.Valid() && revision >= 1 && cfg.maximum != 1 && Lone(WorldAfter(cfg, revision, steps).room)
    ensures var w := WorldAfter(cfg, revision, steps);
            && (exists i | 0 <= i < |w.tasks| :: Ends(w.tasks[i]) || Times(w.room, w.tasks[i]))
            && (forall i | 0 <= i < |w.tasks| && Ends(w.tasks[i]) ::
                  EndsGame(w, WorldAfter(cfg, revision, steps + [WakeStep(i)]), w.tasks[i].job.cause))
            && (forall i | 0 <= i < |w.tasks| && Times(w.room, w.tasks[i]) ::
                  EndsGame(w, WorldAfter(cfg, revision, steps + [WakeStep(i), WakeStep(|w.tasks|)]),
                           LastPlayerStanding))
  {
    hide Run, Lone, Attended, Times, Next, EndsGame;
    NobodyIsForgotten(cfg, revision, steps);
    var w := WorldAfter(cfg, revision, steps);
    SomebodyAwaits(w);
    forall i | 0 <= i < |w.tasks| && Ends(w.tasks[i])
      ensures EndsGame(w, WorldAfter(cfg, revision, steps + [WakeStep(i)]), w.tasks[i].job.cause)
    {
      EndJobEnds(cfg, w, i);
      RunOne(cfg, w, WakeStep(i));
      RunAppend(cfg, Boot(revision), steps, [WakeStep(i)]);
    }
    forall i | 0 <= i < |w.tasks| && Times(w.room, w.tasks[i])
      ensures EndsGame(w, WorldAfter(cfg, revision, steps + [WakeStep(i), WakeStep(|w.tasks|)]), LastPlayerStanding)
    {
      TimerEnds(cfg, w, i);
      RunAppend(cfg, Boot(revision), steps, [WakeStep(i), WakeStep(|w.tasks|)]);
    }
  }
}
