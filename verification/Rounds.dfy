/** Desync detection over whole games: queues are aligned by round, and only agreeing rounds pass unnoticed. */
module Rounds {
  import opened Bytes
  import opened Actions
  import opened Batching
  import opened Consensus
  import opened RoomModel
  import opened RoomInvariant
  import opened Server
  import opened Tasks
  import opened Refinement
  import Protocol

  predicate Unended(s: Room)
  {
    s.started && !s.gameEnded
  }

  /** Every present player has had the same number of rounds taken; its queue is the rest of what it submitted. */
  predicate Aligned(players: Players, h: History)
  {
    forall p | p in players ::
      h.rounds <= |SubmittedBy(h, p)| && players[p].checksums == SubmittedBy(h, p)[h.rounds..]
  }

  /** All present players submitted the same checksum in every round that was taken. */
  predicate Agreed(players: Players, h: History)
    requires Aligned(players, h)
  {
    forall a, b, r | a in players && b in players && 0 <= r < h.rounds :: SubmittedBy(h, a)[r] == SubmittedBy(h, b)[r]
  }

  /** Two players submitted different checksums in a round that was taken. */
  predicate Differs(h: History, a: u8, b: u8, r: nat)
  {
    && a in h.submitted && b in h.submitted
    && r < h.rounds && r < |h.submitted[a]| && r < |h.submitted[b]|
    && h.submitted[a][r] != h.submitted[b][r]
  }

  ghost predicate SomeRoundDiffers(h: History)
  {
    exists a, b, r :: Differs(h, a, b, r)
  }

  /** Queues are aligned, and a desync has been noticed exactly when rounds were seen to differ. */
  ghost predicate Fair(players: Players, h: History)
  {
    Aligned(players, h) && if h.desync then SomeRoundDiffers(h) else Agreed(players, h)
  }

  ghost predicate Compared(s: Room, h: History)
  {
    Unended(s) ==> Fair(s.players, h)
  }

  // One keepalive.

  /** The history after a keepalive of `p` that took `spent` rounds. */
  function Reported(h: History, p: u8, checksum: u32, spent: nat, desync: bool): (h': History)
  {
    h.(submitted := h.submitted[p := SubmittedBy(h, p) + [checksum]], rounds := h.rounds + spent,
        desync := h.desync || desync)
  }

  lemma ReportAligned(players: Players, h: History, p: u8, checksum: u32)
    requires p in players && Aligned(players, h)
    ensures var players1 := players[p := players[p].(checksums := players[p].checksums + [checksum])];
            Aligned(players1, Reported(h, p, checksum, 0, false))
  {
    var h1 := Reported(h, p, checksum, 0, false);
    assert SubmittedBy(h1, p)[h.rounds..] == SubmittedBy(h, p)[h.rounds..] + [checksum];
  }

  lemma DropAligned(players: Players, h: History, spent: nat, desync: bool)
    requires Aligned(players, h) && HasRounds(QueuesOf(players), spent)
    ensures Aligned(DropRounds(players, spent), h.(rounds := h.rounds + spent, desync := desync))
  {
    forall p | p in players
      ensures h.rounds + spent <= |SubmittedBy(h, p)|
      ensures players[p].checksums[spent..] == SubmittedBy(h, p)[h.rounds + spent..]
    {
      assert QueuesOf(players)[p] == players[p].checksums;
    }
  }

  /** Rounds that agree on the queues agree in the history. */
  lemma DropAgreed(players: Players, h: History, spent: nat)
    requires Aligned(players, h) && Agreed(players, h)
    requires HasRounds(QueuesOf(players), spent) && AgreedUpTo(QueuesOf(players), spent)
    ensures var h' := h.(rounds := h.rounds + spent);
            Aligned(DropRounds(players, spent), h') && Agreed(DropRounds(players, spent), h')
  {
    hide QueuesOf, DropRounds, HasRounds, AgreedUpTo;
    var h' := h.(rounds := h.rounds + spent);
    DropAligned(players, h, spent, h.desync);
    DropKeepsStanding(players, spent);
    forall a, b, r | a in players && b in players && 0 <= r < h'.rounds
      ensures r < |SubmittedBy(h', a)| && r < |SubmittedBy(h', b)| && SubmittedBy(h', a)[r] == SubmittedBy(h', b)[r]
    {
      assert SubmittedBy(h', a) == SubmittedBy(h, a) && SubmittedBy(h', b) == SubmittedBy(h, b);
      if r >= h.rounds {
        SameRound(players, h, spent, a, b, r - h.rounds);
      }
    }
  }

  lemma SameRound(players: Players, h: History, spent: nat, a: u8, b: u8, r: nat)
    requires Aligned(players, h) && a in players && b in players && r < spent
    requires HasRounds(QueuesOf(players), spent) && AgreedUpTo(QueuesOf(players), spent)
    ensures h.rounds + r < |SubmittedBy(h, a)| && h.rounds + r < |SubmittedBy(h, b)|
    ensures SubmittedBy(h, a)[h.rounds + r] == SubmittedBy(h, b)[h.rounds + r]
  {
    var q := QueuesOf(players);
    assert q[a] == players[a].checksums && q[b] == players[b].checksums;
    assert !Disagree(q, r);
    assert q[a][r] == q[b][r];
  }

  lemma ReportAgreed(players: Players, h: History, p: u8, checksum: u32)
    requires p in players && Aligned(players, h) && Agreed(players, h)
    ensures var players1 := players[p := players[p].(checksums := players[p].checksums + [checksum])];
            var h1 := Reported(h, p, checksum, 0, false);
            Aligned(players1, h1) && Agreed(players1, h1)
  {
    ReportAligned(players, h, p, checksum);
  }

  /** A disagreeing round on the queues is a disagreeing round of the history. */
  lemma DropDiffers(players: Players, h: History, spent: nat, desync: bool)
    requires Aligned(players, h) && HasRounds(QueuesOf(players), spent)
    requires spent > 0 && Disagree(QueuesOf(players), spent - 1)
    ensures SomeRoundDiffers(h.(rounds := h.rounds + spent, desync := desync))
  {
    var h' := h.(rounds := h.rounds + spent, desync := desync);
    var q := QueuesOf(players);
    var a, b :| a in q && b in q && q[a][spent - 1] != q[b][spent - 1];
    var r := h.rounds + spent - 1;
    assert q[a] == SubmittedBy(h, a)[h.rounds..] && q[b] == SubmittedBy(h, b)[h.rounds..];
    assert Differs(h', a, b, r);
  }

  /** A difference once found is not forgotten while the game lasts. */
  lemma DifferenceStays(h: History, p: u8, checksum: u32, spent: nat, desync: bool)
    requires SomeRoundDiffers(h)
    ensures SomeRoundDiffers(Reported(h, p, checksum, spent, desync))
  {
    var a, b, r :| Differs(h, a, b, r);
    assert Differs(Reported(h, p, checksum, spent, desync), a, b, r);
  }

  function Reporting(players: Players, p: u8, checksum: u32): (players': Players)
    requires p in players
  {
    players[p := players[p].(checksums := players[p].checksums + [checksum])]
  }

  /** A keepalive takes exactly the complete agreeing rounds, or stops after the first that does not agree. */
  lemma ReportIsFair(players: Players, h: History, p: u8, checksum: u32)
    requires p in players && Fair(players, h)
    ensures var players1 := Reporting(players, p, checksum);
            var verdict := Judge(QueuesOf(players1));
            Fair(DropRounds(players1, verdict.rounds), Reported(h, p, checksum, verdict.rounds, verdict.desync))
  {
    hide Judge, Agreed, SomeRoundDiffers, Aligned, QueuesOf, DropRounds, HasRounds, Disagree, AgreedUpTo, SubmittedBy;
    var players1 := Reporting(players, p, checksum);
    var verdict := Judge(QueuesOf(players1));
    var h1 := Reported(h, p, checksum, 0, false);
    var h2 := Reported(h, p, checksum, verdict.rounds, verdict.desync);
    ReportAligned(players, h, p, checksum);
    DropAligned(players1, h1, verdict.rounds, h2.desync);
    JudgeMeaning(QueuesOf(players1));
    if h.desync {
      DifferenceStays(h, p, checksum, verdict.rounds, verdict.desync);
    } else if verdict.desync {
      DropDiffers(players1, h1, verdict.rounds, true);
    } else {
      ReportAgreed(players, h, p, checksum);
      DropAgreed(players1, h1, verdict.rounds);
    }
  }

  lemma KeepAliveCompared(s: Room, h: History, p: u8, sequence: u64, checksum: u32)
    requires p in s.players && Unended(s) && Compared(s, h)
    ensures var s1 := WithChecksum(WithSequence(s, p, sequence), p, checksum);
            var verdict := Judge(QueuesOf(s1.players));
            Compared(s1.(players := DropRounds(s1.players, verdict.rounds)),
                     Reported(h, p, checksum, verdict.rounds, verdict.desync))
  {
    hide Judge, Fair, DropRounds, QueuesOf;
    SequenceCompared(s, h, p, sequence);
    ReportIsFair(WithSequence(s, p, sequence).players, h, p, checksum);
  }

  lemma SequenceCompared(s: Room, h: History, p: u8, sequence: u64)
    requires p in s.players && Compared(s, h)
    ensures Compared(WithSequence(s, p, sequence), h)
  {
  }

  lemma SpentAreRounds(s: Room, p: u8, sequence: u64, checksum: u32)
    requires p in s.players
    ensures var s1 := WithChecksum(WithSequence(s, p, sequence), p, checksum);
            var rounds := Judge(QueuesOf(s1.players)).rounds;
            SpentRounds(s, p, s1.(players := DropRounds(s1.players, rounds))) == rounds
  {
    hide Judge;
    var s1 := WithChecksum(WithSequence(s, p, sequence), p, checksum);
    var rounds := Judge(QueuesOf(s1.players)).rounds;
    assert QueuesOf(s1.players)[p] == s1.players[p].checksums;
  }

  lemma KeepAliveStepCompared(cfg: Config, w: World, step: Step)
    requires cfg.Valid() && Valid(cfg, w.room) && step.KeepAliveStep? && Compared(w.room, w.history)
    ensures var w' := Call(cfg, w, step); Compared(w'.room, w'.history)
  {
    hide Judge, Seated, Queued, Untouched, Served, SequenceError;
    hide Compared, DropRounds, QueuesOf, SpentRounds, AllLoaded, AllReady;
    var e := SubmitKeepAlive(w.room, step.player, step.session, step.sequence, step.checksum);
    if e.reply == Done {
      KeepAliveCompared(w.room, w.history, step.player, step.sequence, step.checksum);
      SpentAreRounds(w.room, step.player, step.sequence, step.checksum);
      var w' := Call(cfg, w, step);
      var reported := WithChecksum(WithSequence(w.room, step.player, step.sequence), step.player, step.checksum);
      var verdict := Judge(QueuesOf(reported.players));
      SameComparison(w'.room, Reported(w.history, step.player, step.checksum, verdict.rounds, verdict.desync),
          w'.history);
    } else {
      SameComparison(w.room, w.history, Call(cfg, w, step).history);
    }
  }

  /** Only the checksum part of the history matters. */
  lemma SameComparison(s: Room, h: History, h': History)
    requires Compared(s, h) && h'.submitted == h.submitted && h'.rounds == h.rounds && h'.desync == h.desync
    ensures Compared(s, h')
  {
    if Unended(s) {
      assert forall p :: SubmittedBy(h', p) == SubmittedBy(h, p);
      if h.desync {
        var a, b, r :| Differs(h, a, b, r);
        assert Differs(h', a, b, r);
      }
    }
  }

  // Everything else.

  /** Queues of those who stay are untouched, and no game is begun. */
  predicate SameQueues(s: Room, s': Room)
  {
    Unended(s') ==>
      && Unended(s)
      && forall p | p in s'.players :: p in s.players && s'.players[p].checksums == s.players[p].checksums
  }

  lemma SameQueuesCompared(s: Room, s': Room, h: History)
    requires Compared(s, h) && SameQueues(s, s')
    ensures Compared(s', h)
  {
  }

  lemma RemoveKeepsQueues(s: Room, before: Room, p: u8, reason: LeaveReason)
    requires s.players == before.players && s.started == before.started && s.gameEnded == before.gameEnded
    ensures SameQueues(before, Remove(s, p, reason).room)
  {
    hide AllLoaded, DepartureUpdates;
  }

  lemma LeaveKeepsQueues(cfg: Config, s: Room, p: u8, session: u64, reason: LeaveReason)
    ensures SameQueues(s, Leave(cfg, s, p, session, reason).room)
  {
    hide Remove, TickFrames, Numbered;
    if HasSession(s.players, p, session) {
      RemoveKeepsQueues(s, s, p, reason);
      RemoveKeepsQueues(PublishPending(cfg, s, 0).room, s, p, reason);
    }
  }

  lemma JoinKeepsQueues(cfg: Config, s: Room, name: string)
    ensures SameQueues(s, Join(cfg, s, name).room)
  {
    hide LeastFree;
  }

  lemma ReportKeepsQueues(cfg: Config, s: Room, step: Step)
    requires step.ActionStep? || step.ChatStep?
    ensures SameQueues(s, CallEffect(cfg, s, step).room)
  {
    hide IsDuplicateChat, SequenceError;
  }

  lemma LoadedKeepsQueues(cfg: Config, s: Room, step: Step)
    requires step.LoadedStep?
    ensures SameQueues(s, CallEffect(cfg, s, step).room)
  {
    hide AllLoaded;
  }

  lemma ReadinessKeepsQueues(cfg: Config, s: Room, step: Step)
    requires step.ReadyStep? || step.ManualStartStep?
    ensures SameQueues(s, CallEffect(cfg, s, step).room)
  {
    hide AllReady, CanStartAutomatically, CanStartOnRequest;
  }

  lemma CallKeepsQueues(cfg: Config, s: Room, step: Step)
    requires !step.FlushStep? && !step.WakeStep? && !step.KeepAliveStep?
    ensures SameQueues(s, CallEffect(cfg, s, step).room)
  {
    hide SameQueues, Join, MarkReady, MarkLoaded, SubmitAction, PublishChat, RequestManualStart, Leave;
    match step
    case JoinStep(name) => JoinKeepsQueues(cfg, s, name);
    case LeaveStep(p, session, reason) => LeaveKeepsQueues(cfg, s, p, session, reason);
    case ReadyStep(_, _) => ReadinessKeepsQueues(cfg, s, step);
    case ManualStartStep(_, _) => ReadinessKeepsQueues(cfg, s, step);
    case LoadedStep(_, _) => LoadedKeepsQueues(cfg, s, step);
    case _ => ReportKeepsQueues(cfg, s, step);
  }

  lemma WakeKeepsQueues(cfg: Config, s: Room, job: Job)
    ensures var r := WakeJob(cfg, s, job); r.events != [Protocol.Begin] ==> SameQueues(s, r.room)
  {
    hide AllReady, TickFrames, Numbered, SlotEvents;
  }

  /** A game begins with empty queues and an empty history. */
  lemma BeginCompared(cfg: Config, s: Room, job: Job, h: History)
    requires Untouched(s) && WakeJob(cfg, s, job).events == [Protocol.Begin]
    ensures Compared(WakeJob(cfg, s, job).room, NewGame(h))
  {
    hide TickFrames, Numbered;
    if !job.CountdownJob? {
      NoBegin(cfg, s, job);
    }
  }

  lemma StepCompared(cfg: Config, w: World, step: Step)
    requires cfg.Valid() && Valid(cfg, w.room) && Compared(w.room, w.history)
    ensures var w' := Next(cfg, w, step); Compared(w'.room, w'.history)
  {
    hide Compared, Valid, WakeJob, CallEffect, SameQueues, CallEvents;
    var w' := Next(cfg, w, step);
    if !Enabled(w, step) {
    } else if step.FlushStep? {
      SameComparison(w.room, w.history, w'.history);
    } else if step.WakeStep? {
      var r := WakeJob(cfg, w.room, w.tasks[step.task].job);
      if r.events == [Protocol.Begin] {
        UntouchedNow(cfg, w.room);
        BeginCompared(cfg, w.room, w.tasks[step.task].job, w.history);
        SameComparison(r.room, NewGame(w.history), w'.history);
      } else {
        WakeKeepsQueues(cfg, w.room, w.tasks[step.task].job);
        SameQueuesCompared(w.room, r.room, w.history);
        SameComparison(r.room, w.history, w'.history);
      }
    } else if step.KeepAliveStep? {
      KeepAliveStepCompared(cfg, w, step);
    } else {
      CallKeepsQueues(cfg, w.room, step);
      SameQueuesCompared(w.room, CallEffect(cfg, w.room, step).room, w.history);
      SameComparison(CallEffect(cfg, w.room, step).room, w.history, w'.history);
    }
  }

  lemma UntouchedNow(cfg: Config, s: Room)
    requires cfg.Valid() && Valid(cfg, s)
    ensures Untouched(s)
  {
  }

  lemma BootCompared(cfg: Config, revision: u64)
    ensures Compared(Boot(revision).room, Boot(revision).history)
  {
  }

  /**
   Over every run and at every moment of a game: all present players have had the same number of rounds taken off
   their queues; a desync has been detected only if two players really differed in such a round, and as long as none
   has been, all present players agree on every round taken.
   */
  lemma {:induction false} RoundsAreAligned(cfg: Config, revision: u64, steps: seq<Step>)
    requires cfg.Valid() && revision >= 1
    ensures var w := WorldAfter(cfg, revision, steps); Compared(w.room, w.history)
    decreases |steps|
  {
    hide Compared, Valid, Honest, Issued, InStep, Next;
    if steps == [] {
      BootCompared(cfg, revision);
    } else {
      var before := steps[..|steps| - 1];
      RoundsAreAligned(cfg, revision, before);
      ServerFollowsProtocol(cfg, revision, before);
      StepCompared(cfg, WorldAfter(cfg, revision, before), steps[|steps| - 1]);
    }
  }

  /** Right after a keepalive without desync no complete round is left: some present player's queue is empty. */
  lemma KeepAliveSpendsAllRounds(s: Room, p: u8, session: u64, sequence: u64, checksum: u32)
    requires var e := SubmitKeepAlive(s, p, session, sequence, checksum); e.reply == Done && e.tail == Nothing
    ensures var s' := SubmitKeepAlive(s, p, session, sequence, checksum).room;
            exists q | q in s'.players :: s'.players[q].checksums == []
  {
    hide Judge;
    var s1 := WithChecksum(WithSequence(s, p, sequence), p, checksum);
    var q := QueuesOf(s1.players);
    JudgeMeaning(q);
    assert p in q;
    var shortest :| shortest in q && |q[shortest]| == CompleteRounds(q);
    assert q[shortest] == s1.players[shortest].checksums;
  }
}
