/**
 Frame numbers from agent to room: the room accepts exactly 1, 2, 3, ... of every session, and an agent that
 numbers its frames so is never refused as out of sequence.
 */
module Sequences {
  import Batching
  import opened Bytes
  import opened Consensus
  import opened RoomModel
  import opened Server
  import opened LobbySession
  import opened Refinement

  /** A frame of the session, as the room took it in, and what it answered. */
  datatype Receipt = Receipt(sequence: u64, reply: Reply)

  predicate Carries(step: Step, p: u8, session: u64)
  {
    (step.ActionStep? || step.KeepAliveStep?) && step.player == p && step.session == session
  }

  /** What a step adds to the receipts of a session. */
  ghost function NewReceipts(cfg: Config, w: World, step: Step, p: u8, session: u64): (receipts: seq<Receipt>)
  {
    if Carries(step, p, session) && Enabled(w, step)
    then [Receipt(step.sequence, CallEffect(cfg, w.room, step).reply)] else []
  }

  /** Every action and keepalive of the session that the room took in during a run, in order. */
  ghost function Receipts(cfg: Config, revision: u64, steps: seq<Step>, p: u8, session: u64): (receipts: seq<Receipt>)
    decreases |steps|
  {
    if steps == [] then []
    else
      var before := steps[..|steps| - 1];
      Receipts(cfg, revision, before, p, session)
      + NewReceipts(cfg, WorldAfter(cfg, revision, before), steps[|steps| - 1], p, session)
  }

  /** The numbers of the frames that were accepted. */
  function Accepted(receipts: seq<Receipt>): (numbers: seq<u64>)
  {
    if receipts == [] then []
    else
      var last := receipts[|receipts| - 1];
      Accepted(receipts[..|receipts| - 1]) + if last.reply == Done then [last.sequence] else []
  }

  lemma AcceptedMore(receipts: seq<Receipt>, r: Receipt)
    ensures Accepted(receipts + [r]) == Accepted(receipts) + if r.reply == Done then [r.sequence] else []
  {
    assert (receipts + [r])[..|receipts|] == receipts;
  }

  // What one step does to a session's number.

  /** The session keeps its number, or has just been handed out and starts at zero. */
  predicate KeepsNumber(s: Room, s': Room, p: u8, session: u64)
  {
    && s.nextSession <= s'.nextSession
    && (HasSession(s'.players, p, session) ==>
          || (HasSession(s.players, p, session) && s'.players[p].lastSequence == s.players[p].lastSequence)
          || (session == s.nextSession < s'.nextSession && s'.players[p].lastSequence == 0))
  }

  lemma LeaveKeepsNumber(cfg: Config, s: Room, step: Step, p: u8, session: u64)
    requires step.LeaveStep?
    ensures KeepsNumber(s, CallEffect(cfg, s, step).room, p, session)
  {
    hide Leave, PublishPending, DepartureUpdates, AllLoaded;
    if HasSession(s.players, step.player, step.session) {
      LeaveParts(cfg, s, step.player, step.session, step.reason);
      FlushedKeepsPeople(cfg, s);
    } else {
      LeaveByStranger(cfg, s, step.player, step.session, step.reason);
    }
  }

  lemma ReportKeepsNumber(cfg: Config, s: Room, step: Step, p: u8, session: u64)
    requires step.ActionStep? || step.KeepAliveStep? || step.ChatStep?
    requires !Carries(step, p, session)
    ensures KeepsNumber(s, CallEffect(cfg, s, step).room, p, session)
  {
    hide Judge, QueuesOf, IsDuplicateChat, SequenceError;
  }

  lemma EntryKeepsNumber(cfg: Config, s: Room, step: Step, p: u8, session: u64)
    requires step.JoinStep? || step.ReadyStep? || step.LoadedStep? || step.ManualStartStep?
    ensures KeepsNumber(s, CallEffect(cfg, s, step).room, p, session)
  {
    hide AllReady, AllLoaded, LeastFree, CanStartOnRequest, CanStartAutomatically;
  }

  lemma CallKeepsNumber(cfg: Config, s: Room, step: Step, p: u8, session: u64)
    requires !step.FlushStep? && !step.WakeStep? && !Carries(step, p, session)
    ensures KeepsNumber(s, CallEffect(cfg, s, step).room, p, session)
  {
    hide CallEffect, KeepsNumber;
    if step.LeaveStep? {
      LeaveKeepsNumber(cfg, s, step, p, session);
    } else if step.ActionStep? || step.KeepAliveStep? || step.ChatStep? {
      ReportKeepsNumber(cfg, s, step, p, session);
    } else {
      EntryKeepsNumber(cfg, s, step, p, session);
    }
  }

  lemma WakeKeepsNumber(cfg: Config, s: Room, job: Job, p: u8, session: u64)
    ensures KeepsNumber(s, WakeJob(cfg, s, job).room, p, session)
  {
    hide Batching.TickFrames, Numbered, AllReady, SlotEvents;
  }

  predicate OutOfSequence(reply: Reply)
  {
    reply.Failed? && (reply.failure.InvalidGameSequence? || reply.failure.GameSequenceExhausted?)
  }

  /** A frame is accepted only as the next one, refused as out of sequence only when it is not. */
  lemma FrameMovesNumber(cfg: Config, s: Room, step: Step, p: u8, session: u64)
    requires Carries(step, p, session)
    ensures var e := CallEffect(cfg, s, step);
            && e.room.nextSession == s.nextSession
            && (HasSession(e.room.players, p, session) <==> HasSession(s.players, p, session))
            && (e.reply == Done ==>
                  && HasSession(s.players, p, session)
                  && e.room.players[p].lastSequence == step.sequence == s.players[p].lastSequence + 1)
            && (e.reply != Done ==> e.room == s)
            && (OutOfSequence(e.reply) ==>
                  HasSession(s.players, p, session) && step.sequence != s.players[p].lastSequence + 1)
  {
    hide Judge, QueuesOf;
  }

  // Every run.

  /** What a session's accepted numbers say about the room. */
  predicate Tallied(s: Room, numbers: seq<u64>, p: u8, session: u64)
  {
    && InSequence(numbers)
    && (HasSession(s.players, p, session) ==>
          session < s.nextSession && s.players[p].lastSequence == |numbers|)
    && (session >= s.nextSession ==> numbers == [])
  }

  lemma StepKeepsTally(cfg: Config, w: World, step: Step, receipts: seq<Receipt>, p: u8, session: u64)
    requires Tallied(w.room, Accepted(receipts), p, session)
    ensures var receipts' := receipts + NewReceipts(cfg, w, step, p, session);
            Tallied(Next(cfg, w, step).room, Accepted(receipts'), p, session)
  {
    hide CallEffect, CallEvents, Remember, Owed, WakeJob, Accepted;
    assert receipts + [] == receipts;
    if Enabled(w, step) && Carries(step, p, session) {
      FrameMovesNumber(cfg, w.room, step, p, session);
      AcceptedMore(receipts, Receipt(step.sequence, CallEffect(cfg, w.room, step).reply));
    } else if Enabled(w, step) && step.WakeStep? {
      WakeKeepsNumber(cfg, w.room, w.tasks[step.task].job, p, session);
    } else if Enabled(w, step) && !step.FlushStep? {
      CallKeepsNumber(cfg, w.room, step, p, session);
    }
  }

  /**
   Whatever is sent and refused, what the room accepts of a session is numbered 1, 2, 3, ..., and while its
   player is present the room's last number is how many it has accepted.
   */
  lemma {:induction false} RoomCountsFrames(cfg: Config, revision: u64, steps: seq<Step>, p: u8, session: u64)
    ensures var s := WorldAfter(cfg, revision, steps).room;
            var numbers := Accepted(Receipts(cfg, revision, steps, p, session));
            Tallied(s, numbers, p, session)
    decreases |steps|
  {
    hide Next, NewReceipts;
    if steps != [] {
      var before := steps[..|steps| - 1];
      RoomCountsFrames(cfg, revision, before, p, session);
      StepKeepsTally(cfg, WorldAfter(cfg, revision, before), steps[|steps| - 1],
                     Receipts(cfg, revision, before, p, session), p, session);
    }
  }

  // Agents.

  /** The room took the agent's frames in the order they were sent. */
  predicate TakenInOrder(receipts: seq<Receipt>, sent: seq<u64>)
  {
    |receipts| <= |sent| && forall i | 0 <= i < |receipts| :: receipts[i].sequence == sent[i]
  }

  /** No frame was refused for anything but its number. */
  predicate OnlyNumbersRefused(receipts: seq<Receipt>)
  {
    forall i | 0 <= i < |receipts| :: receipts[i].reply == Done || OutOfSequence(receipts[i].reply)
  }

  predicate AllAccepted(receipts: seq<Receipt>)
  {
    forall i | 0 <= i < |receipts| :: receipts[i].reply == Done
  }

  lemma {:induction false} AllAreAccepted(receipts: seq<Receipt>)
    requires AllAccepted(receipts)
    ensures |Accepted(receipts)| == |receipts|
  {
    if receipts != [] {
      AllAreAccepted(receipts[..|receipts| - 1]);
    }
  }

  /** With everything accepted so far, the agent's next frame carries the number the room expects. */
  lemma NextIsAccepted(cfg: Config, w: World, step: Step, receipts: seq<Receipt>, p: u8, session: u64, sent: seq<u64>)
    requires Tallied(w.room, Accepted(receipts), p, session) && AllAccepted(receipts) && InSequence(sent)
    requires var receipts' := receipts + NewReceipts(cfg, w, step, p, session);
             TakenInOrder(receipts', sent) && OnlyNumbersRefused(receipts')
    ensures AllAccepted(receipts + NewReceipts(cfg, w, step, p, session))
  {
    hide CallEffect, Accepted;
    AllAreAccepted(receipts);
    var more := NewReceipts(cfg, w, step, p, session);
    if more != [] {
      FrameMovesNumber(cfg, w.room, step, p, session);
      assert (receipts + more)[|receipts|] == more[0];
    }
  }

  lemma ShorterIsFine(receipts: seq<Receipt>, more: seq<Receipt>, sent: seq<u64>)
    requires TakenInOrder(receipts + more, sent) && OnlyNumbersRefused(receipts + more)
    ensures TakenInOrder(receipts, sent) && OnlyNumbersRefused(receipts)
  {
    assert forall i | 0 <= i < |receipts| :: (receipts + more)[i] == receipts[i];
  }

  /**
   In every run, as long as the room takes a session's frames in the order the agent numbered them and refuses
   none for another reason, it refuses none as out of sequence either, and a present player's last number is how
   many it has taken.
   */
  lemma {:induction false} NeverOutOfSequence(cfg: Config, revision: u64, steps: seq<Step>, p: u8, session: u64,
                                              outbox: seq<ToServer>)
    requires InSequence(SentNumbers(outbox))
    requires var receipts := Receipts(cfg, revision, steps, p, session);
             TakenInOrder(receipts, SentNumbers(outbox)) && OnlyNumbersRefused(receipts)
    ensures var s := WorldAfter(cfg, revision, steps).room;
            var receipts := Receipts(cfg, revision, steps, p, session);
            && AllAccepted(receipts)
            && (HasSession(s.players, p, session) ==> s.players[p].lastSequence == |receipts|)
    decreases |steps|
  {
    hide WorldAfter, NewReceipts, SentNumbers, InSequence, AllAccepted, OnlyNumbersRefused, TakenInOrder;
    var receipts := Receipts(cfg, revision, steps, p, session);
    if steps == [] {
      NothingRefused();
    } else {
      var before := steps[..|steps| - 1];
      var w := WorldAfter(cfg, revision, before);
      var earlier := Receipts(cfg, revision, before, p, session);
      ShorterIsFine(earlier, NewReceipts(cfg, w, steps[|steps| - 1], p, session), SentNumbers(outbox));
      NeverOutOfSequence(cfg, revision, before, p, session, outbox);
      RoomCountsFrames(cfg, revision, before, p, session);
      NextIsAccepted(cfg, w, steps[|steps| - 1], earlier, p, session, SentNumbers(outbox));
    }
    RoomCountsFrames(cfg, revision, steps, p, session);
    AllAreAccepted(receipts);
  }

  lemma NothingRefused()
    ensures AllAccepted([])
  {
  }
}
