/**
 Detached tasks and the generations they capture: every step and every wake-up spawns tasks in the order of
 their generations and keeps a countdown's remaining time in step with the room.
 */
module Tasks {
  import opened Bytes
  import opened Batching
  import opened RoomModel
  import opened Consensus
  import opened RoomInvariant
  import opened Server
  import Protocol

  /** A critical section starts a countdown or a game only under a new generation, which it hands to its task. */
  predicate Ages(s: Room, s': Room, tail: Tail)
  {
    && s.countdownGeneration <= s'.countdownGeneration && s.gameplayGeneration <= s'.gameplayGeneration
    && (tail.SpawnCountdown? ==> tail.generation == s'.countdownGeneration > s.countdownGeneration)
    && (!tail.SpawnCountdown? && s'.countdownActive ==>
          s.countdownActive && s'.countdownGeneration == s.countdownGeneration)
    && (tail.SpawnGameplay? ==> tail.generation == s'.gameplayGeneration > s.gameplayGeneration)
    && (!tail.SpawnGameplay? && s'.gameplayActive ==>
          s.gameplayActive && s'.gameplayGeneration == s.gameplayGeneration)
  }

  /** A call either starts a countdown at the full time or leaves the running one's time alone; it starts no game. */
  predicate KeepsTime(cfg: Config, s: Room, s': Room, tail: Tail)
  {
    && (s'.countdownActive ==>
          s'.countdownRemaining == if tail.SpawnCountdown? then Some(cfg.initialSeconds) else s.countdownRemaining)
    && (s'.started && !s'.gameEnded ==> s.started && !s.gameEnded)
  }

  /** The flags and generations that tasks look at. */
  predicate SameClocks(a: Room, b: Room)
  {
    && a.countdownGeneration == b.countdownGeneration && a.gameplayGeneration == b.gameplayGeneration
    && a.countdownActive == b.countdownActive && a.gameplayActive == b.gameplayActive
    && a.countdownRemaining == b.countdownRemaining
    && a.started == b.started && a.gameEnded == b.gameEnded
  }

  predicate Advances(cfg: Config, s: Room, s': Room, tail: Tail)
  {
    var start := s;
    Ages(start, s', tail) && KeepsTime(cfg, start, s', tail)
  }

  lemma ClocksAdvance(cfg: Config, s: Room, s1: Room, s': Room, tail: Tail)
    requires SameClocks(s, s1) && Advances(cfg, s1, s', tail)
    ensures Advances(cfg, s, s', tail)
  {
  }

  lemma BeginCountdownAdvances(cfg: Config, s: Room)
    ensures var e := BeginCountdown(cfg, s); Advances(cfg, s, e.room, e.tail)
  {
  }

  lemma BeginGameplayAdvances(cfg: Config, s: Room)
    ensures var e := BeginGameplayIfReady(s); Advances(cfg, s, e.room, e.tail)
  {
    hide AllLoaded;
  }

  lemma ReadyAdvances(cfg: Config, s: Room, p: u8, session: u64)
    ensures var e := MarkReady(cfg, s, p, session); Advances(cfg, s, e.room, e.tail)
  {
    hide AllReady, Ages, KeepsTime, BeginCountdown, CanStartAutomatically, CanStartOnRequest;
    if HasSession(s.players, p, session) && !s.players[p].ready {
      var s1 := Ready(s, p);
      BeginCountdownAdvances(cfg, s1);
      ClocksAdvance(cfg, s, s1, BeginCountdown(cfg, s1).room, BeginCountdown(cfg, s1).tail);
      Idle(cfg, s, s1);
    }
    Idle(cfg, s, s);
  }

  lemma Idle(cfg: Config, s: Room, s': Room, tail: Tail := Nothing)
    requires SameClocks(s, s') && !tail.SpawnCountdown? && !tail.SpawnGameplay?
    ensures Advances(cfg, s, s', tail)
  {
  }

  lemma RemoveAdvances(cfg: Config, s: Room, p: u8, reason: LeaveReason)
    ensures var e := Remove(s, p, reason); Advances(cfg, s, e.room, e.tail)
  {
    hide DepartureUpdates;
    var s1 := Without(s, p);
    BeginGameplayAdvances(cfg, s1);
  }

  lemma LeaveAdvances(cfg: Config, s: Room, p: u8, session: u64, reason: LeaveReason)
    ensures var e := Leave(cfg, s, p, session, reason); Advances(cfg, s, e.room, e.tail)
  {
    hide Remove, TickFrames, Numbered, Ages, KeepsTime;
    Idle(cfg, s, s);
    if HasSession(s.players, p, session) {
      var flushed := PublishPending(cfg, s, 0).room;
      Idle(cfg, s, flushed);
      RemoveAdvances(cfg, s, p, reason);
      RemoveAdvances(cfg, flushed, p, reason);
      var removed := Remove(flushed, p, reason);
      ClocksAdvance(cfg, s, flushed, removed.room, removed.tail);
    }
  }

  lemma LoadedAdvances(cfg: Config, s: Room, p: u8, session: u64)
    ensures var e := MarkLoaded(s, p, session); Advances(cfg, s, e.room, e.tail)
  {
    hide BeginGameplayIfReady, Ages, KeepsTime;
    Idle(cfg, s, s);
    if HasSession(s.players, p, session) && s.started {
      var begun := BeginGameplayIfReady(Loaded(s, p));
      BeginGameplayAdvances(cfg, Loaded(s, p));
      ClocksAdvance(cfg, s, Loaded(s, p), begun.room, begun.tail);
    }
  }

  lemma ManualStartAdvances(cfg: Config, s: Room, p: u8, session: u64)
    ensures var e := RequestManualStart(cfg, s, p, session); Advances(cfg, s, e.room, e.tail)
  {
    hide BeginCountdown, Ages, KeepsTime, AllReady;
    Idle(cfg, s, s);
    Idle(cfg, s, s.(manualStart := true));
    BeginCountdownAdvances(cfg, s);
  }

  lemma JoinAdvances(cfg: Config, s: Room, name: string)
    ensures var e := Join(cfg, s, name); Advances(cfg, s, e.room, e.tail)
  {
    hide LeastFree, Ages, KeepsTime;
    var e := Join(cfg, s, name);
    Idle(cfg, s, e.room, e.tail);
  }

  /** Reports and chat start nothing. */
  lemma ReportAdvances(cfg: Config, s: Room, step: Step)
    requires step.ActionStep? || step.KeepAliveStep? || step.ChatStep?
    ensures var e := CallEffect(cfg, s, step); Advances(cfg, s, e.room, e.tail)
  {
    hide SequenceError, IsDuplicateChat, DropRounds, QueuesOf, Judge, Ages, KeepsTime;
    var e := CallEffect(cfg, s, step);
    Idle(cfg, s, e.room, e.tail);
  }

  lemma CallAdvances(cfg: Config, s: Room, step: Step)
    requires !step.FlushStep? && !step.WakeStep?
    ensures var e := CallEffect(cfg, s, step); Advances(cfg, s, e.room, e.tail)
  {
    hide Advances, MarkReady, MarkLoaded, RequestManualStart, Leave, Join, SubmitAction, SubmitKeepAlive, PublishChat;
    match step
    case ReadyStep(p, session) => ReadyAdvances(cfg, s, p, session);
    case LoadedStep(p, session) => LoadedAdvances(cfg, s, p, session);
    case ManualStartStep(p, session) => ManualStartAdvances(cfg, s, p, session);
    case LeaveStep(p, session, reason) => LeaveAdvances(cfg, s, p, session, reason);
    case JoinStep(name) => JoinAdvances(cfg, s, name);
    case _ => ReportAdvances(cfg, s, step);
  }

  // Generations order the tasks.

  predicate IssuedBy(s: Room, job: Job)
  {
    match job
    case CountdownJob(g, _) => g <= s.countdownGeneration
    case GameplayJob(g) => g <= s.gameplayGeneration
    case _ => true
  }

  predicate Precedes(a: Job, b: Job)
  {
    && (a.CountdownJob? && b.CountdownJob? ==> a.generation < b.generation)
    && (a.GameplayJob? && b.GameplayJob? ==> a.generation < b.generation)
  }

  /** Countdown generations, and likewise gameplay generations, strictly increase in the order of spawning. */
  predicate Issued(s: Room, tasks: seq<Task>)
  {
    && (forall i | 0 <= i < |tasks| :: IssuedBy(s, tasks[i].job))
    && (forall i, j | 0 <= i < j < |tasks| :: Precedes(tasks[i].job, tasks[j].job))
  }

  /** A countdown task the room still listens to agrees with it on the remaining time. */
  predicate Timely(s: Room, t: Task)
  {
    !t.done && t.job.CountdownJob? && s.countdownActive && s.countdownGeneration == t.job.generation
    ==> s.countdownRemaining == Some(t.job.remaining)
  }

  predicate InStep(s: Room, tasks: seq<Task>)
  {
    forall i | 0 <= i < |tasks| :: Timely(s, tasks[i])
  }

  lemma CallKeepsOrder(cfg: Config, s: Room, s': Room, tail: Tail, tasks: seq<Task>)
    requires Issued(s, tasks) && InStep(s, tasks) && Advances(cfg, s, s', tail)
    ensures var tasks' := tasks + Spawned(tail, cfg); Issued(s', tasks') && InStep(s', tasks')
  {
    var tasks' := tasks + Spawned(tail, cfg);
    forall i | 0 <= i < |tasks'| ensures IssuedBy(s', tasks'[i].job) && Timely(s', tasks'[i]) {
      if i < |tasks| {
        assert IssuedBy(s, tasks[i].job) && Timely(s, tasks[i]);
      }
    }
    forall i, j | 0 <= i < j < |tasks'| ensures Precedes(tasks'[i].job, tasks'[j].job) {
      assert IssuedBy(s, tasks[i].job);
    }
  }

  // Waking a task.

  predicate SameJob(a: Job, b: Job)
  {
    match a
    case CountdownJob(g, _) => b.CountdownJob? && b.generation == g
    case _ => a == b
  }

  predicate Drives(s: Room, job: Job)
  {
    job.CountdownJob? && CountdownMatches(s, job.generation)
  }

  /** Waking starts nothing anew, and moves the time only together with the task that was woken. */
  predicate Follows(s: Room, job: Job, r: Wakeup)
  {
    && SameJob(job, r.task.job)
    && Ages(s, r.room, Nothing)
    && r.room.countdownGeneration == s.countdownGeneration
    && (r.room.countdownActive ==>
          if Drives(s, job) then r.room.countdownRemaining == Some(r.task.job.remaining)
          else r.room.countdownRemaining == s.countdownRemaining)
    && (job.CountdownJob? && !Drives(s, job) ==> r.task.done)
    && (forall i | 0 <= i < |r.spawned| :: r.spawned[i].job.EndGameJob?)
  }

  lemma WakeFollows(cfg: Config, s: Room, job: Job)
    ensures Follows(s, job, WakeJob(cfg, s, job))
  {
    hide TickFrames, Numbered, AllReady;
  }

  lemma WakeKeepsOrder(cfg: Config, s: Room, tasks: seq<Task>, i: nat)
    requires i < |tasks| && Issued(s, tasks) && InStep(s, tasks)
    ensures var r := WakeJob(cfg, s, tasks[i].job);
            var tasks' := tasks[i := r.task] + r.spawned;
            Issued(r.room, tasks') && InStep(r.room, tasks')
  {
    hide WakeJob;
    WakeFollows(cfg, s, tasks[i].job);
    var r := WakeJob(cfg, s, tasks[i].job);
    var tasks' := tasks[i := r.task] + r.spawned;
    forall j | 0 <= j < |tasks'| ensures IssuedBy(r.room, tasks'[j].job) && Timely(r.room, tasks'[j]) {
      if j < |tasks| {
        assert IssuedBy(s, tasks[j].job) && Timely(s, tasks[j]);
        assert i < j ==> Precedes(tasks[i].job, tasks[j].job);
        assert j < i ==> Precedes(tasks[j].job, tasks[i].job);
      }
    }
    forall j, k | 0 <= j < k < |tasks'| ensures Precedes(tasks'[j].job, tasks'[k].job) {
      assert k < |tasks| ==> Precedes(tasks[j].job, tasks[k].job);
    }
  }

  lemma {:induction false} OnlySlots(sent: seq<Update>)
    ensures forall i | 0 <= i < |SlotEvents(sent)| :: SlotEvents(sent)[i].Slot?
  {
    if sent != [] {
      OnlySlots(sent[1..]);
    }
  }

  /** Only the countdown task begins a game. */
  lemma NoBegin(cfg: Config, s: Room, job: Job)
    requires !job.CountdownJob?
    ensures WakeJob(cfg, s, job).events != [Protocol.Begin]
  {
    hide GameplayTick, SlotEvents;
    if job.GameplayJob? {
      OnlySlots(GameplayTick(cfg, s, job.generation).1);
    }
    assert [Protocol.Begin][0] == Protocol.Begin;
  }
}
