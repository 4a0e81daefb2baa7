/**
 What precedes a frame in every log: the start of its game and, since then, exactly one loading report of
 each player present when the frame is published.
 */
module FirstFrame {
  import opened Bytes
  import opened Frames
  import opened Batching
  import opened RoomModel
  import RoomInvariant
  import opened Server
  import opened LogShape
  import Protocol
  import Refinement

  /** How often `p` has been reported loaded since the last start. */
  function Reports(log: seq<Update>, p: u8): (count: nat)
  {
    if log == [] || log[|log| - 1].Start? then 0
    else Reports(log[..|log| - 1], p) + if log[|log| - 1] == PlayerLoaded(p) then 1 else 0
  }

  /** The spectator holds a player for loaded exactly when it saw one report and no departure. */
  lemma {:induction false} LoadedIsReported(cfg: Config, log: seq<Update>, p: u8)
    requires Watch(cfg, AT_REST, log).Some? && InGame(Watch(cfg, AT_REST, log).value.stage)
    ensures var o := Watch(cfg, AT_REST, log).value;
            && (p in o.loaded ==> p !in o.gone && Reports(log, p) == 1)
            && (p !in o.loaded && p !in o.gone ==> Reports(log, p) == 0)
            && Reports(log, p) <= 1
    decreases |log|
  {
    hide Watch, Protocol.ProperSlot;
    LastOfNothing(cfg, log);
    LastUpdate(cfg, log);
    if !log[|log| - 1].Start? {
      LoadedIsReported(cfg, log[..|log| - 1], p);
    }
  }

  /** While a game is on, its start is in the log and somebody has stayed ever since. */
  lemma {:induction false} CurrentGame(cfg: Config, log: seq<Update>) returns (i: nat)
    requires Watch(cfg, AT_REST, log).Some? && InGame(Watch(cfg, AT_REST, log).value.stage)
    ensures OneGame(log, i, |log|)
    decreases |log|
  {
    hide Watch, Protocol.ProperSlot;
    LastOfNothing(cfg, log);
    LastUpdate(cfg, log);
    var before, u := log[..|log| - 1], log[|log| - 1];
    if u.Start? {
      i := |log| - 1;
    } else {
      i := CurrentGame(cfg, before);
      assert log[i..|log|] == before[i..|before|] + [u];
    }
  }

  // Frames come first in whatever a step publishes, and only from a running game.

  /** Everything up to the latest frame is frames, and there are none unless the game runs. */
  predicate FramesFirst(s: Room, sent: seq<Update>)
  {
    forall i | 0 <= i < |sent| && sent[i].GameFrame? ::
      s.gameplayActive && forall k | 0 <= k < i :: sent[k].GameFrame?
  }

  lemma {:induction false} NumberedAreFrames(frames: seq<Frame>, last: u64)
    ensures forall i | 0 <= i < |Numbered(frames, last)| :: Numbered(frames, last)[i].GameFrame?
  {
    if frames != [] && last < U64_MAX {
      NumberedAreFrames(frames[1..], last + 1);
    }
  }

  lemma PublishedAreFrames(cfg: Config, s: Room, incrementMs: u16)
    ensures var sent := PublishPending(cfg, s, incrementMs).sent; forall i | 0 <= i < |sent| :: sent[i].GameFrame?
  {
    hide TickFrames, Numbered;
    var frames := TickFrames(cfg.crc, incrementMs, s.pending);
    if frames.Ok? {
      NumberedAreFrames(frames.value, s.gameplaySequence);
    }
  }

  lemma DeparturesAreNoFrames(s: Room, p: u8, reason: LeaveReason)
    ensures forall i | 0 <= i < |Remove(s, p, reason).sent| :: !Remove(s, p, reason).sent[i].GameFrame?
  {
    hide BeginGameplayIfReady;
  }

  lemma FlushedAreFrames(cfg: Config, s: Room)
    ensures var sent := Refinement.Flushed(cfg, s).sent;
            (sent != [] ==> s.gameplayActive) && forall i | 0 <= i < |sent| :: sent[i].GameFrame?
  {
    hide PublishPending;
    PublishedAreFrames(cfg, s, 0);
  }

  lemma LeaveFramesFirst(cfg: Config, s: Room, p: u8, session: u64, reason: LeaveReason)
    ensures FramesFirst(s, Leave(cfg, s, p, session, reason).sent)
  {
    hide Leave, Remove, Refinement.Flushed;
    if HasSession(s.players, p, session) {
      Refinement.LeaveParts(cfg, s, p, session, reason);
      FlushedAreFrames(cfg, s);
      DeparturesAreNoFrames(Refinement.Flushed(cfg, s).room, p, reason);
    } else {
      Refinement.LeaveByStranger(cfg, s, p, session, reason);
    }
  }

  lemma CallFramesFirst(cfg: Config, s: Room, step: Step)
    requires !step.FlushStep? && !step.WakeStep?
    ensures FramesFirst(s, CallEffect(cfg, s, step).sent)
  {
    hide Leave, AllReady, LeastFree, IsDuplicateChat, SequenceError, CanStartOnRequest, CanStartAutomatically;
    if step.LeaveStep? {
      LeaveFramesFirst(cfg, s, step.player, step.session, step.reason);
    }
  }

  lemma WakeFramesFirst(cfg: Config, s: Room, job: Job)
    ensures FramesFirst(s, WakeJob(cfg, s, job).sent)
  {
    hide PublishPending, AllReady, SlotEvents;
    PublishedAreFrames(cfg, s, cfg.incrementMs);
  }

  /** A step appends to the log. */
  lemma StepAppends(cfg: Config, w: World, step: Step)
    ensures w.log <= Next(cfg, w, step).log
  {
    hide CallEffect, CallEvents, Remember, Owed, WakeJob, GameplayTick;
  }

  lemma StepFramesFirst(cfg: Config, w: World, step: Step)
    requires Refinement.Honest(w)
    ensures w.log <= Next(cfg, w, step).log && FramesFirst(w.room, Next(cfg, w, step).log[|w.log|..])
  {
    hide CallEffect, CallEvents, Remember, Owed, WakeJob, GameplayTick, FramesFirst;
    StepAppends(cfg, w, step);
    var sent := Next(cfg, w, step).log[|w.log|..];
    if !Enabled(w, step) {
      FewFrames(w.room, sent);
    } else if step.FlushStep? {
      Refinement.OwesNow(w, step.session);
      FewFrames(w.room, sent);
    } else if step.WakeStep? {
      WakeFramesFirst(cfg, w.room, w.tasks[step.task].job);
      assert sent == WakeJob(cfg, w.room, w.tasks[step.task].job).sent;
    } else {
      CallFramesFirst(cfg, w.room, step);
      assert sent == CallEffect(cfg, w.room, step).sent;
    }
  }

  lemma FewFrames(s: Room, sent: seq<Update>)
    requires |sent| <= 1 && (|sent| == 1 ==> !sent[0].GameFrame?)
    ensures FramesFirst(s, sent)
  {
  }

  lemma {:induction false} FramesReportNothing(log: seq<Update>, frames: seq<Update>, p: u8)
    requires forall i | 0 <= i < |frames| :: frames[i].GameFrame?
    ensures Reports(log + frames, p) == Reports(log, p)
    decreases |frames|
  {
    if frames == [] {
      assert log + frames == log;
    } else {
      var before := frames[..|frames| - 1];
      assert (log + frames)[..|log + frames| - 1] == log + before;
      FramesReportNothing(log, before, p);
    }
  }

  // Every frame of every run.

  /** Step `n` of the run publishes update `i` of its log. */
  ghost predicate Publishes(cfg: Config, revision: u64, steps: seq<Step>, n: nat, i: nat)
    requires n < |steps|
  {
    |WorldAfter(cfg, revision, steps[..n]).log| <= i < |WorldAfter(cfg, revision, steps[..n + 1]).log|
  }

  lemma OneStepLater(cfg: Config, revision: u64, steps: seq<Step>, n: nat)
    requires n < |steps|
    ensures WorldAfter(cfg, revision, steps[..n + 1]) == Next(cfg, WorldAfter(cfg, revision, steps[..n]), steps[n])
  {
    hide Next;
    assert steps[..n + 1][..n] == steps[..n];
  }

  lemma {:induction false} LogGrows(cfg: Config, revision: u64, steps: seq<Step>, n: nat)
    requires n <= |steps|
    ensures WorldAfter(cfg, revision, steps[..n]).log <= WorldAfter(cfg, revision, steps).log
    decreases |steps| - n
  {
    hide Next, WorldAfter;
    if n < |steps| {
      OneStepLater(cfg, revision, steps, n);
      StepAppends(cfg, WorldAfter(cfg, revision, steps[..n]), steps[n]);
      LogGrows(cfg, revision, steps, n + 1);
    } else {
      assert steps[..n] == steps;
    }
  }

  /** Every update of a log is published by one step of the run. */
  lemma {:induction false} SomeStepPublishes(cfg: Config, revision: u64, steps: seq<Step>, i: nat) returns (n: nat)
    requires i < |WorldAfter(cfg, revision, steps).log|
    ensures n < |steps| && Publishes(cfg, revision, steps, n, i)
    decreases |steps|
  {
    hide Next, WorldAfter;
    EmptyRun(cfg, revision);
    var last := |steps| - 1;
    assert steps[..|steps|] == steps;
    if i < |WorldAfter(cfg, revision, steps[..last]).log| {
      n := SomeStepPublishes(cfg, revision, steps[..last], i);
      assert steps[..last][..n] == steps[..n] && steps[..last][..n + 1] == steps[..n + 1];
    } else {
      n := last;
    }
  }

  lemma EmptyRun(cfg: Config, revision: u64)
    ensures WorldAfter(cfg, revision, []).log == []
  {
  }

  /** In a running game everybody present has been reported loaded exactly once since its start. */
  lemma PlayersAreReported(cfg: Config, revision: u64, steps: seq<Step>, p: u8)
    requires cfg.Valid() && revision >= 1
    ensures var w := WorldAfter(cfg, revision, steps);
            w.room.gameplayActive && p in w.room.players ==> Reports(w.log, p) == 1
  {
    hide WorldAfter, Watch, Reports, RoomInvariant.Seated, RoomInvariant.Queued, RoomInvariant.Untouched,
      RoomInvariant.Served;
    ServerLogHasShape(cfg, revision, steps);
    Refinement.ServerFollowsProtocol(cfg, revision, steps);
    var w := WorldAfter(cfg, revision, steps);
    if w.room.gameplayActive && p in w.room.players {
      LoadedIsReported(cfg, w.log, p);
    }
  }

  lemma Between(before: seq<Update>, after: seq<Update>, log: seq<Update>, i: nat)
    requires before <= after <= log && |before| <= i < |after|
    ensures var sent := after[|before|..];
            sent[i - |before|] == log[i] && log[..i] == before + sent[..i - |before|]
  {
    assert log[..i] == after[..i];
  }

  /** A frame is published from a running game, and nothing but frames comes before it in its step. */
  lemma FrameStep(cfg: Config, revision: u64, steps: seq<Step>, n: nat, i: nat) returns (frames: seq<Update>)
    requires cfg.Valid() && revision >= 1
    requires n < |steps| && Publishes(cfg, revision, steps, n, i)
    ensures var log := WorldAfter(cfg, revision, steps).log;
            var w := WorldAfter(cfg, revision, steps[..n]);
            && i < |log|
            && (log[i].GameFrame? ==>
                  w.room.gameplayActive && log[..i] == w.log + frames
                  && forall k | 0 <= k < |frames| :: frames[k].GameFrame?)
  {
    hide WorldAfter, Next, Protocol.Leads, Refinement.Honest, RoomInvariant.Valid, Refinement.Abs;
    var log := WorldAfter(cfg, revision, steps).log;
    var w := WorldAfter(cfg, revision, steps[..n]);
    var after := WorldAfter(cfg, revision, steps[..n + 1]).log;
    LogGrows(cfg, revision, steps, n + 1);
    OneStepLater(cfg, revision, steps, n);
    Refinement.ServerFollowsProtocol(cfg, revision, steps[..n]);
    StepFramesFirst(cfg, w, steps[n]);
    Between(w.log, after, log, i);
    frames := after[|w.log|..][..i - |w.log|];
  }

  /** An accepted frame belongs to a game that has started and still has players. */
  lemma FrameInGame(cfg: Config, log: seq<Update>, i: nat)
    requires Watch(cfg, AT_REST, log).Some? && i < |log| && log[i].GameFrame?
    ensures exists k :: OneGame(log, k, i)
  {
    hide Watch, Protocol.ProperSlot;
    AfterUpdate(cfg, log, i);
    var k := CurrentGame(cfg, log[..i]);
    assert log[..i][k..|log[..i]|] == log[k..i];
    assert OneGame(log, k, i);
  }

  /**
   Whenever a step publishes a frame, the log up to that frame holds the start of a game that nobody's leaving
   has emptied since, and after it exactly one loading report of every player then present.
   */
  lemma FramesFollowLoading(cfg: Config, revision: u64, steps: seq<Step>, n: nat, i: nat)
    requires cfg.Valid() && revision >= 1
    requires n < |steps| && Publishes(cfg, revision, steps, n, i)
    ensures var log := WorldAfter(cfg, revision, steps).log;
            var present := WorldAfter(cfg, revision, steps[..n]).room.players;
            && i < |log|
            && (log[i].GameFrame? ==>
                  && (exists k :: OneGame(log, k, i))
                  && (forall p | p in present :: Reports(log[..i], p) == 1))
  {
    hide WorldAfter, Publishes, Watch, Believes, Reports, OneGame;
    var log := WorldAfter(cfg, revision, steps).log;
    var w := WorldAfter(cfg, revision, steps[..n]);
    var frames := FrameStep(cfg, revision, steps, n, i);
    if log[i].GameFrame? {
      ServerLogHasShape(cfg, revision, steps);
      FrameInGame(cfg, log, i);
      forall p | p in w.room.players ensures Reports(log[..i], p) == 1 {
        PlayersAreReported(cfg, revision, steps[..n], p);
        FramesReportNothing(w.log, frames, p);
      }
    }
  }
}
