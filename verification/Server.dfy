/**
 The server as a concurrent system: the room, the sends made after the lock is released, and the
 detached countdown, gameplay and last-player tasks. A step is one critical section, one late send
 or one task wake-up; `WorldAfter` folds any interleaving of steps from a fresh room.
 */
module Server {
  import opened Bytes
  import opened Text
  import opened Actions
  import opened Rosters
  import opened RoomModel
  import Protocol

  datatype Job =
    | CountdownJob(generation: u64, remaining: u8)
    | GameplayJob(generation: u64)
    | LastPlayerJob(generation: u64)
    | EndGameJob(cause: EndReason)

  datatype Task = Task(job: Job, done: bool)

  /** A send its session still owes after releasing the lock. */
  datatype Parcel = Parcel(player: u8, update: Update)

  /** Facts about the past that the room itself forgets; the game's part restarts when a game starts. */
  datatype History = History(
    tickets: map<u64, Protocol.Ticket>,
    events: seq<Protocol.Event>,
    accepted: seq<PlayerAction>,
    ticks: nat,
    submitted: map<u8, seq<u32>>,
    rounds: nat,
    desync: bool)

  datatype World = World(
    room: Room,
    log: seq<Update>,
    tasks: seq<Task>,
    inflight: map<u64, Parcel>,
    history: History)

  datatype Step =
    | JoinStep(name: string)
    | ReadyStep(player: u8, session: u64)
    | LoadedStep(player: u8, session: u64)
    | ActionStep(player: u8, session: u64, sequence: u64, action: PlayerAction)
    | KeepAliveStep(player: u8, session: u64, sequence: u64, checksum: u32)
    | ChatStep(player: u8, session: u64, message: string, now: nat)
    | ManualStartStep(player: u8, session: u64)
    | LeaveStep(player: u8, session: u64, reason: LeaveReason)
    | FlushStep(session: u64)
    | WakeStep(task: nat)

  function Boot(revision: u64): (w: World)
  {
    World(FreshRoom(revision), [], [], map[], History(map[], [], [], 0, map[], 0, false))
  }

  /**
   A session makes one call at a time, so it is idle while it still owes a send. Names, messages and
   actions have passed the validation of the connection handler.
   */
  predicate Enabled(w: World, step: Step)
  {
    match step
    case JoinStep(name) => ValidPlayerName(name)
    case ReadyStep(_, s) => s !in w.inflight
    case LoadedStep(_, s) => s !in w.inflight
    case ActionStep(_, s, _, action) => s !in w.inflight && ValidAction(action)
    case KeepAliveStep(_, s, _, _) => s !in w.inflight
    case ChatStep(_, s, message, _) => s !in w.inflight && ValidChatMessage(message)
    case ManualStartStep(_, s) => s !in w.inflight
    case LeaveStep(_, s, _) => s !in w.inflight
    case FlushStep(s) => s in w.inflight
    case WakeStep(i) => i < |w.tasks| && !w.tasks[i].done
  }

  /** The effect of the critical section of a session call. */
  ghost function CallEffect(cfg: Config, s: Room, step: Step): (e: Effect)
    requires !step.FlushStep? && !step.WakeStep?
  {
    match step
    case JoinStep(name) => Join(cfg, s, name)
    case ReadyStep(p, session) => MarkReady(cfg, s, p, session)
    case LoadedStep(p, session) => MarkLoaded(s, p, session)
    case ActionStep(p, session, sequence, action) => SubmitAction(s, p, session, sequence, action)
    case KeepAliveStep(p, session, sequence, checksum) => SubmitKeepAlive(s, p, session, sequence, checksum)
    case ChatStep(p, session, message, now) => PublishChat(s, p, session, message, now)
    case ManualStartStep(p, session) => RequestManualStart(cfg, s, p, session)
    case LeaveStep(p, session, reason) => Leave(cfg, s, p, session, reason)
  }

  /** The task a call leaves behind. */
  function Spawned(tail: Tail, cfg: Config): (tasks: seq<Task>)
  {
    match tail
    case EndGame(cause) => [Task(EndGameJob(cause), false)]
    case SpawnCountdown(g) => [Task(CountdownJob(g, cfg.initialSeconds), false)]
    case SpawnGameplay(g) => [Task(GameplayJob(g), false)]
    case SpawnLastPlayerTimer(g) => [Task(LastPlayerJob(g), false)]
    case _ => []
  }

  function Owed(inflight: map<u64, Parcel>, step: Step, e: Effect): (inflight': map<u64, Parcel>)
  {
    if !e.tail.Send? then inflight
    else if step.JoinStep? && e.reply.Joined? then
      inflight[e.reply.session := Parcel(e.reply.player, e.tail.update)]
    else if step.ChatStep? then inflight[step.session := Parcel(step.player, e.tail.update)]
    else inflight
  }

  function SlotEvents(sent: seq<Update>): (events: seq<Protocol.Event>)
  {
    if sent == [] then []
    else if sent[0].GameFrame? then [Protocol.Slot(sent[0].frame)] + SlotEvents(sent[1..])
    else SlotEvents(sent[1..])
  }

  /** What a call means in terms of the protocol. */
  function CallEvents(s: Room, step: Step, e: Effect): (events: seq<Protocol.Event>)
    requires !step.FlushStep? && !step.WakeStep?
  {
    var play := if e.tail.SpawnGameplay? then [Protocol.Play] else [];
    match step
    case JoinStep(name) => if e.reply.Joined? then [Protocol.Enter(name)] else []
    case ReadyStep(_, _) => if e.sent != [] then [Protocol.BeginCountdown] else []
    case ManualStartStep(_, _) => if e.sent != [] then [Protocol.BeginCountdown] else []
    case LoadedStep(p, _) => if e.sent != [] then [Protocol.Load(p)] + play else []
    case LeaveStep(p, session, reason) =>
      if HasSession(s.players, p, session) && p !in e.room.players
      then SlotEvents(e.sent) + ([Protocol.Depart(p, reason)] + play)
      else SlotEvents(e.sent)
    case _ => []
  }

  function Remember(h: History, step: Step, e: Effect, before: Room, events: seq<Protocol.Event>,
                    logged: nat): (h': History)
  {
    var h1 := h.(events := h.events + events);
    if step.JoinStep? && e.reply.Joined? then
      h1.(tickets := h.tickets[e.reply.session := Protocol.Ticket(e.reply.roster, logged)])
    else if step.ActionStep? && e.reply == Done then h1.(accepted := h.accepted + [step.action])
    else if step.KeepAliveStep? && e.reply == Done then
      h1.(submitted := h.submitted[step.player := SubmittedBy(h, step.player) + [step.checksum]],
          rounds := h.rounds + SpentRounds(before, step.player, e.room),
          desync := h.desync || e.tail.EndGame?)
    else h1
  }

  function SubmittedBy(h: History, p: u8): (checksums: seq<u32>)
  {
    if p in h.submitted then h.submitted[p] else []
  }

  /** How many rounds a keepalive of `p` took off the queues. */
  function SpentRounds(before: Room, p: u8, after: Room): (n: nat)
  {
    if p in before.players && p in after.players
       && |after.players[p].checksums| <= |before.players[p].checksums| + 1
    then |before.players[p].checksums| + 1 - |after.players[p].checksums|
    else 0
  }

  ghost function Call(cfg: Config, w: World, step: Step): (w': World)
    requires !step.FlushStep? && !step.WakeStep?
  {
    var e := CallEffect(cfg, w.room, step);
    World(e.room, w.log + e.sent, w.tasks + Spawned(e.tail, cfg), Owed(w.inflight, step, e),
          Remember(w.history, step, e, w.room, CallEvents(w.room, step, e), |w.log|))
  }

  function Flush(w: World, session: u64): (w': World)
    requires session in w.inflight
  {
    var parcel := w.inflight[session];
    var events := if parcel.update.RosterUpdate? then [Protocol.Announce(parcel.player)]
                  else if parcel.update.Chat? then [Protocol.Say(parcel.player, parcel.update.message)]
                  else [];
    w.(log := w.log + [parcel.update], inflight := w.inflight - {session},
       history := w.history.(events := w.history.events + events))
  }

  /** The result of waking a task: room, broadcasts, the task afterwards, tasks it hands over to, events. */
  datatype Wakeup = Wakeup(room: Room, sent: seq<Update>, task: Task, spawned: seq<Task>, events: seq<Protocol.Event>)

  function WakeJob(cfg: Config, s: Room, job: Job): (r: Wakeup)
  {
    match job
    case CountdownJob(g, remaining) =>
      if remaining > cfg.stepSeconds then
        var next := remaining - cfg.stepSeconds;
        var (room, sent, live) := CountdownTick(s, g, next);
        Wakeup(room, sent, Task(CountdownJob(g, next), !live), [], if live then [Protocol.Tick] else [])
      else
        var (room, sent) := FinishCountdown(s, g);
        Wakeup(room, sent, Task(job, true), [], if sent != [] then [Protocol.Begin] else [])
    case GameplayJob(g) =>
      var (room, sent, result) := GameplayTick(cfg, s, g);
      Wakeup(room, sent, Task(job, result != Continue),
             if result.TickFailed? then [Task(EndGameJob(ProtocolError), false)] else [], SlotEvents(sent))
    case LastPlayerJob(g) =>
      Wakeup(s, [], Task(job, true),
             if LonePlayer(s, g) then [Task(EndGameJob(LastPlayerStanding), false)] else [], [])
    case EndGameJob(cause) =>
      var e := EndGameNow(s, cause);
      Wakeup(e.room, e.sent, Task(job, true), [], if e.sent != [] then [Protocol.End(cause)] else [])
  }

  function NewGame(h: History): (h': History)
  {
    h.(accepted := [], ticks := 0, submitted := map[], rounds := 0, desync := false)
  }

  function Wake(cfg: Config, w: World, i: nat): (w': World)
    requires i < |w.tasks|
  {
    var r := WakeJob(cfg, w.room, w.tasks[i].job);
    var completed := w.tasks[i].job.GameplayJob? && GameplayTick(cfg, w.room, w.tasks[i].job.generation).2 == Continue;
    var h := w.history.(events := w.history.events + r.events);
    w.(room := r.room, log := w.log + r.sent, tasks := w.tasks[i := r.task] + r.spawned,
       history := if r.events == [Protocol.Begin] then NewGame(h)
                  else if completed then h.(ticks := h.ticks + 1)
                  else h)
  }

  /** One step; a step that is not enabled changes nothing. */
  ghost function Next(cfg: Config, w: World, step: Step): (w': World)
  {
    if !Enabled(w, step) then w
    else
      match step
      case FlushStep(s) => Flush(w, s)
      case WakeStep(i) => Wake(cfg, w, i)
      case _ => Call(cfg, w, step)
  }

  ghost function Run(cfg: Config, w: World, steps: seq<Step>): (w': World)
    decreases |steps|
  {
    if steps == [] then w else Next(cfg, Run(cfg, w, steps[..|steps| - 1]), steps[|steps| - 1])
  }

  /** The server after any interleaving of steps. */
  ghost function WorldAfter(cfg: Config, revision: u64, steps: seq<Step>): (w: World)
  {
    Run(cfg, Boot(revision), steps)
  }
}
