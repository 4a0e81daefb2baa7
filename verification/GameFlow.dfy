/**
 Conservation over whole games: no accepted action is lost, repeated or reordered, and the clock gains one
 increment a tick.
 */
module GameFlow {
  import opened Bytes
  import opened Frames
  import opened Actions
  import opened GameTunnel
  import opened Batching
  import opened Consensus
  import opened RoomModel
  import opened RoomInvariant
  import opened Server
  import opened Tasks
  import opened Refinement
  import Protocol

  /** What Warcraft reads off one broadcast frame. */
  function SlotIn(crc: Crc, frame: seq<u8>): (slot: Timeslot)
  {
    var f := DecodeExact(frame, MAX_TUNNELED_FRAME_BYTES);
    if f.Ok? && DecodeTimeslot(crc, f.value).Ok? then DecodeTimeslot(crc, f.value).value else Timeslot(false, 0, [])
  }

  /** The actions published since the last start. */
  function GameActions(crc: Crc, log: seq<Update>): (actions: seq<PlayerAction>)
  {
    if log == [] then []
    else
      var u := log[|log| - 1];
      if u.Start? then []
      else GameActions(crc, log[..|log| - 1]) + if u.GameFrame? then SlotIn(crc, u.frame).actions else []
  }

  /** The game time published since the last start. */
  function GameTime(crc: Crc, log: seq<Update>): (ms: nat)
  {
    if log == [] then 0
    else
      var u := log[|log| - 1];
      if u.Start? then 0
      else GameTime(crc, log[..|log| - 1]) + if u.GameFrame? then SlotIn(crc, u.frame).increment else 0
  }

  function TimeOf(slots: seq<Timeslot>): (ms: nat)
  {
    if slots == [] then 0 else slots[0].increment + TimeOf(slots[1..])
  }

  lemma LogGrows(crc: Crc, log: seq<Update>, u: Update)
    ensures GameActions(crc, log + [u]) ==
              if u.Start? then [] else GameActions(crc, log) + if u.GameFrame? then SlotIn(crc, u.frame).actions else []
    ensures GameTime(crc, log + [u]) ==
              if u.Start? then 0 else GameTime(crc, log) + if u.GameFrame? then SlotIn(crc, u.frame).increment else 0
  {
    assert (log + [u])[..|log + [u]| - 1] == log;
  }

  predicate Neutral(sent: seq<Update>)
  {
    forall i | 0 <= i < |sent| :: !sent[i].Start? && !sent[i].GameFrame?
  }

  lemma {:induction false} NeutralGrowth(crc: Crc, log: seq<Update>, sent: seq<Update>)
    requires Neutral(sent)
    ensures GameActions(crc, log + sent) == GameActions(crc, log) && GameTime(crc, log + sent) == GameTime(crc, log)
    decreases |sent|
  {
    hide SlotIn;
    if sent == [] {
      assert log + sent == log;
    } else {
      LogGrows(crc, log, sent[0]);
      NeutralGrowth(crc, log + [sent[0]], sent[1..]);
      assert (log + [sent[0]]) + sent[1..] == log + sent;
    }
  }

  lemma {:induction false} NumberedGrowth(crc: Crc, log: seq<Update>, frames: seq<Frame>, last: u64)
    requires DecodeAll(crc, frames).Some?
    requires forall i | 0 <= i < |frames| :: EncodedLength(frames[i]) <= MAX_TIMESLOT_BYTES
    ensures var sent := Numbered(frames, last);
            var slots := DecodeAll(crc, frames).value[..|sent|];
            && GameActions(crc, log + sent) == GameActions(crc, log) + ActionsOf(slots)
            && GameTime(crc, log + sent) == GameTime(crc, log) + TimeOf(slots)
    decreases |frames|
  {
    hide GameActions, GameTime, DecodeTimeslot, DecodeExact;
    var sent := Numbered(frames, last);
    var slots := DecodeAll(crc, frames).value;
    if sent == [] {
      assert log + sent == log;
      assert slots[..0] == [];
    } else {
      FrameRoundTrip(frames[0], MAX_TUNNELED_FRAME_BYTES);
      LogGrows(crc, log, sent[0]);
      assert forall i | 0 <= i < |frames[1..]| :: frames[1..][i] == frames[i + 1];
      NumberedGrowth(crc, log + [sent[0]], frames[1..], last + 1);
      assert sent[1..] == Numbered(frames[1..], last + 1);
      assert (log + [sent[0]]) + sent[1..] == log + sent;
      assert slots[1..] == DecodeAll(crc, frames[1..]).value;
      assert slots[..|sent|][1..] == slots[1..][..|sent| - 1];
    }
  }

  lemma {:induction false} TickTime(increment: u16, slots: seq<Timeslot>, n: nat)
    requires WellFormedTick(increment, slots) && n <= |slots|
    ensures TimeOf(slots[..n]) == if n == |slots| then increment else 0
    decreases |slots|
  {
    if n > 0 {
      assert slots[..n][1..] == slots[1..][..n - 1];
      if |slots| > 1 {
        assert slots[0].increment == 0;
        assert WellFormedTick(increment, slots[1..]);
        TickTime(increment, slots[1..], n - 1);
      }
    }
  }

  lemma {:induction false} ActionsOfPrefix(slots: seq<Timeslot>, n: nat)
    requires n <= |slots|
    ensures ActionsOf(slots[..n]) <= ActionsOf(slots)
    ensures n == |slots| ==> ActionsOf(slots[..n]) == ActionsOf(slots)
    decreases |slots|
  {
    if n > 0 {
      assert slots[..n][1..] == slots[1..][..n - 1];
      ActionsOfPrefix(slots[1..], n - 1);
    }
  }

  /** A publication delivers the whole queue and the increment, or exhausts the sequence space within the queue. */
  lemma PublishGrowth(cfg: Config, s: Room, incrementMs: u16, log: seq<Update>)
    requires ValidActions(s.pending)
    ensures var r := PublishPending(cfg, s, incrementMs);
            var published := GameActions(cfg.crc, log + r.sent);
            && GameTime(cfg.crc, log + r.sent) == GameTime(cfg.crc, log) + (if r.failure.None? then incrementMs else 0)
            && (if r.failure.None? then published == GameActions(cfg.crc, log) + s.pending
                else published <= GameActions(cfg.crc, log) + s.pending && r.room.gameplaySequence == U64_MAX)
            && (s.gameplaySequence == U64_MAX ==> r.sent == [])
  {
    hide GameActions, GameTime, DecodeAll, TickFrames;
    TickFramesCorrect(cfg.crc, incrementMs, s.pending);
    var frames := TickFrames(cfg.crc, incrementMs, s.pending).value;
    var slots := DecodeAll(cfg.crc, frames).value;
    var sent := Numbered(frames, s.gameplaySequence);
    NumberedFits(frames, s.gameplaySequence);
    NumberedGrowth(cfg.crc, log, frames, s.gameplaySequence);
    TickTime(incrementMs, slots, |sent|);
    ActionsOfPrefix(slots, |sent|);
  }

  // The conserved quantities.

  /** The game is loading: started, not yet running, not ended. */
  predicate Awaiting(s: Room)
  {
    s.started && !s.gameplayActive && !s.gameEnded
  }

  /** Published followed by pending is accepted; once the sequence space is exhausted, published is a prefix of it. */
  predicate Balanced(cfg: Config, s: Room, log: seq<Update>, accepted: seq<PlayerAction>)
  {
    var published := GameActions(cfg.crc, log);
    && published <= accepted
    && (s.gameplayActive && s.gameplaySequence < U64_MAX ==> published + s.pending == accepted)
    && (Awaiting(s) ==> accepted == [] && published == [])
  }

  /** Each completed tick has published exactly one increment. */
  predicate OnTime(cfg: Config, log: seq<Update>, ticks: nat)
  {
    GameTime(cfg.crc, log) == cfg.incrementMs * ticks
  }

  predicate Conserved(cfg: Config, w: World)
  {
    Balanced(cfg, w.room, w.log, w.history.accepted) && OnTime(cfg, w.log, w.history.ticks)
  }

  // Calls other than actions and flushes leave the queue of a running game alone.

  predicate Steady(s: Room, s': Room)
  {
    && (s'.gameplayActive ==>
          if s.gameplayActive then s'.pending == s.pending && s'.gameplaySequence == s.gameplaySequence
          else Awaiting(s) && s'.pending == [])
    && (Awaiting(s') ==> Awaiting(s))
  }

  lemma SteadyBalanced(cfg: Config, s: Room, s': Room, log: seq<Update>, sent: seq<Update>, accepted: seq<PlayerAction>)
    requires Balanced(cfg, s, log, accepted) && Steady(s, s') && Neutral(sent)
    ensures Balanced(cfg, s', log + sent, accepted)
  {
    hide GameActions;
    NeutralGrowth(cfg.crc, log, sent);
    assert GameActions(cfg.crc, log) + [] == GameActions(cfg.crc, log);
  }

  lemma RemoveSteady(s: Room, p: u8, reason: LeaveReason)
    requires s.gameplayActive ==> s.started && !s.gameEnded
    requires !s.gameplayActive ==> s.pending == []
    ensures var e := Remove(s, p, reason); Steady(s, e.room) && Neutral(e.sent)
  {
    hide AllLoaded;
  }

  lemma QuietSteady(cfg: Config, s: Room, step: Step)
    requires s.gameplayActive ==> s.started && !s.gameEnded
    requires !s.gameplayActive ==> s.pending == []
    requires !step.FlushStep? && !step.WakeStep? && !step.LeaveStep? && !step.ActionStep?
    ensures var e := CallEffect(cfg, s, step); Steady(s, e.room) && Neutral(e.sent)
  {
    hide LeastFree, SequenceError, IsDuplicateChat, Judge, QueuesOf;
    hide DropRounds, AllReady, AllLoaded, CanStartAutomatically, CanStartOnRequest;
  }

  lemma EnqueueBalanced(cfg: Config, s: Room, step: Step, log: seq<Update>, accepted: seq<PlayerAction>)
    requires step.ActionStep? && Balanced(cfg, s, log, accepted)
    ensures var e := CallEffect(cfg, s, step);
            && e.sent == []
            && Balanced(cfg, e.room, log, if e.reply == Done then accepted + [step.action] else accepted)
  {
    hide GameActions, SequenceError;
    var published := GameActions(cfg.crc, log);
    assert (published + s.pending) + [step.action] == published + (s.pending + [step.action]);
  }

  lemma FlushedBalanced(cfg: Config, s: Room, log: seq<Update>, accepted: seq<PlayerAction>)
    requires cfg.Valid() && Valid(cfg, s) && Balanced(cfg, s, log, accepted)
    ensures var r := Flushed(cfg, s);
            && Balanced(cfg, r.room, log + r.sent, accepted)
            && GameTime(cfg.crc, log + r.sent) == GameTime(cfg.crc, log)
            && (r.room.gameplayActive ==> r.room.started && !r.room.gameEnded)
            && (!r.room.gameplayActive ==> r.room.pending == [])
  {
    hide GameActions, GameTime, TickFrames, Seated, Untouched, Served;
    if s.gameplayActive && s.pending != [] {
      PublishGrowth(cfg, s, 0, log);
      PublishBalanced(cfg, s, 0, log, accepted);
    } else {
      assert log + [] == log;
    }
  }

  lemma PublishBalanced(cfg: Config, s: Room, incrementMs: u16, log: seq<Update>, accepted: seq<PlayerAction>)
    requires ValidActions(s.pending) && s.gameplayActive && Balanced(cfg, s, log, accepted)
    ensures var r := PublishPending(cfg, s, incrementMs); Balanced(cfg, r.room, log + r.sent, accepted)
  {
    hide GameActions, TickFrames, Numbered;
    PublishGrowth(cfg, s, incrementMs, log);
    var published := GameActions(cfg.crc, log);
    assert published + [] == published;
    if s.gameplaySequence == U64_MAX {
      assert log + [] == log;
    } else {
      var r := PublishPending(cfg, s, incrementMs);
      assert GameActions(cfg.crc, log + r.sent) + [] == GameActions(cfg.crc, log + r.sent);
    }
  }

  lemma LeaveConserved(cfg: Config, s: Room, p: u8, session: u64, reason: LeaveReason, log: seq<Update>,
                       accepted: seq<PlayerAction>)
    requires cfg.Valid() && Valid(cfg, s) && Balanced(cfg, s, log, accepted)
    ensures var e := Leave(cfg, s, p, session, reason);
            Balanced(cfg, e.room, log + e.sent, accepted) && GameTime(cfg.crc, log + e.sent) == GameTime(cfg.crc, log)
  {
    hide GameActions, GameTime, Balanced, Valid, Leave, Remove, Flushed, Steady, Neutral;
    if HasSession(s.players, p, session) {
      LeaveParts(cfg, s, p, session, reason);
      FlushedBalanced(cfg, s, log, accepted);
      var flushed := Flushed(cfg, s);
      var removed := Remove(flushed.room, p, reason);
      RemoveSteady(flushed.room, p, reason);
      SteadyBalanced(cfg, flushed.room, removed.room, log + flushed.sent, removed.sent, accepted);
      NeutralGrowth(cfg.crc, log + flushed.sent, removed.sent);
      assert (log + flushed.sent) + removed.sent == log + (flushed.sent + removed.sent);
    } else {
      LeaveByStranger(cfg, s, p, session, reason);
      assert log + [] == log;
    }
  }

  lemma ActiveMeansRunning(cfg: Config, s: Room)
    requires cfg.Valid() && Valid(cfg, s)
    ensures s.gameplayActive ==> s.started && !s.gameEnded
    ensures !s.gameplayActive ==> s.pending == []
    ensures ValidActions(s.pending)
  {
  }

  lemma CallConserved(cfg: Config, w: World, step: Step)
    requires cfg.Valid() && Valid(cfg, w.room) && Conserved(cfg, w) && !step.FlushStep? && !step.WakeStep?
    ensures Conserved(cfg, Call(cfg, w, step))
  {
    hide GameActions, GameTime, Balanced, Valid, CallEffect, Steady, Neutral, CallEvents;
    var e := CallEffect(cfg, w.room, step);
    var w' := Call(cfg, w, step);
    if step.ActionStep? {
      EnqueueBalanced(cfg, w.room, step, w.log, w.history.accepted);
      assert w.log + [] == w.log;
    } else if step.LeaveStep? {
      LeaveIsLeave(cfg, w.room, step);
      LeaveConserved(cfg, w.room, step.player, step.session, step.reason, w.log, w.history.accepted);
    } else {
      ActiveMeansRunning(cfg, w.room);
      QuietSteady(cfg, w.room, step);
      SteadyBalanced(cfg, w.room, e.room, w.log, e.sent, w.history.accepted);
      NeutralGrowth(cfg.crc, w.log, e.sent);
    }
  }

  lemma LeaveIsLeave(cfg: Config, s: Room, step: Step)
    requires step.LeaveStep?
    ensures CallEffect(cfg, s, step) == Leave(cfg, s, step.player, step.session, step.reason)
  {
  }

  lemma FlushConserved(cfg: Config, w: World, session: u64)
    requires Honest(w) && Conserved(cfg, w) && session in w.inflight
    ensures Conserved(cfg, Flush(w, session))
  {
    hide GameActions, GameTime, Honest;
    OwesNow(w, session);
    NeutralGrowth(cfg.crc, w.log, [w.inflight[session].update]);
  }

  lemma OneMoreTick(increment: nat, ticks: nat)
    ensures increment * (ticks + 1) == increment * ticks + increment
  {
  }

  lemma TickConserved(cfg: Config, w: World, i: nat)
    requires cfg.Valid() && Valid(cfg, w.room) && Conserved(cfg, w)
    requires i < |w.tasks| && w.tasks[i].job.GameplayJob?
    ensures Conserved(cfg, Wake(cfg, w, i))
  {
    hide GameActions, GameTime, Valid, PublishPending, SlotEvents;
    var s := w.room;
    ActiveMeansRunning(cfg, s);
    OneMoreTick(cfg.incrementMs, w.history.ticks);
    NoBegin(cfg, s, w.tasks[i].job);
    if GameplayMatches(s, w.tasks[i].job.generation) {
      PublishGrowth(cfg, s, cfg.incrementMs, w.log);
      PublishBalanced(cfg, s, cfg.incrementMs, w.log, w.history.accepted);
    } else {
      assert w.log + [] == w.log;
    }
  }

  lemma WakeConserved(cfg: Config, w: World, i: nat)
    requires cfg.Valid() && Valid(cfg, w.room) && Conserved(cfg, w)
    requires i < |w.tasks| && !w.tasks[i].job.GameplayJob?
    ensures Conserved(cfg, Wake(cfg, w, i))
  {
    hide GameActions, GameTime, Valid, AllReady;
    ActiveMeansRunning(cfg, w.room);
    var r := WakeJob(cfg, w.room, w.tasks[i].job);
    LogGrows(cfg.crc, w.log, Start);
    if r.sent == [Start] {
      assert r.events == [Protocol.Begin];
    } else {
      hide Balanced;
      SteadyBalanced(cfg, w.room, r.room, w.log, r.sent, w.history.accepted);
      NeutralGrowth(cfg.crc, w.log, r.sent);
    }
  }

  lemma BootConserved(cfg: Config, revision: u64)
    ensures Conserved(cfg, Boot(revision))
  {
  }

  /**
   FIFO and game-time conservation over every run: while a game runs, the actions read off its published frames
   followed by the pending ones are exactly the accepted ones in order of acceptance (a prefix of them once the
   game has ended or the sequence space is exhausted), and its published time is one increment per completed tick.
   */
  lemma {:induction false} NothingIsLost(cfg: Config, revision: u64, steps: seq<Step>)
    requires cfg.Valid() && revision >= 1
    ensures Conserved(cfg, WorldAfter(cfg, revision, steps))
    decreases |steps|
  {
    hide Valid, Honest, Issued, InStep, Conserved, Call, Wake;
    if steps == [] {
      BootConserved(cfg, revision);
    } else {
      var before := steps[..|steps| - 1];
      var step := steps[|steps| - 1];
      var w := WorldAfter(cfg, revision, before);
      NothingIsLost(cfg, revision, before);
      ServerFollowsProtocol(cfg, revision, before);
      if Enabled(w, step) {
        if step.FlushStep? {
          FlushConserved(cfg, w, step.session);
        } else if step.WakeStep? {
          if w.tasks[step.task].job.GameplayJob? {
            TickConserved(cfg, w, step.task);
          } else {
            WakeConserved(cfg, w, step.task);
          }
        } else {
          CallConserved(cfg, w, step);
        }
      }
    }
  }
}
