/** Sessions over all runs: never reused, and powerless once their player has left. */
module Sessions {
  import opened Batching
  import opened Bytes
  import opened Consensus
  import opened RoomModel
  import opened RoomInvariant
  import opened Server
  import opened Tasks
  import opened Refinement
  import opened Timers
  import P = Protocol

  /** The session was handed out, and its player has left. */
  predicate Departed(s: Room, session: u64)
  {
    session < s.nextSession && forall p | p in s.players :: s.players[p].session != session
  }

  /** Calls made under `session`, and the late send it may owe. */
  predicate ActsFor(step: Step, session: u64)
  {
    match step
    case JoinStep(_) => false
    case WakeStep(_) => false
    case FlushStep(s) => s == session
    case _ => step.session == session
  }

  lemma DepartedIsInert(cfg: Config, w: World, step: Step, session: u64)
    requires Honest(w) && Departed(w.room, session) && ActsFor(step, session)
    ensures var w' := Next(cfg, w, step);
            w'.room == w.room && w'.log == w.log && w'.tasks == w.tasks && w'.inflight == w.inflight
  {
    hide Remember, SequenceError, IsDuplicateChat, Judge, QueuesOf, TickFrames;
    if step.FlushStep? && session in w.inflight {
      OwesNow(w, session);
    }
  }

  /**
   A session whose player has left can never again change the room, publish or start a task, even after its
   player id has been given to somebody else.
   */
  lemma DepartedSessionIsPowerless(cfg: Config, revision: u64, steps: seq<Step>, more: seq<Step>, step: Step,
                                   session: u64)
    requires cfg.Valid() && revision >= 1 && ActsFor(step, session)
    ensures var w := WorldAfter(cfg, revision, steps + more);
            var w' := WorldAfter(cfg, revision, steps + more + [step]);
            Departed(WorldAfter(cfg, revision, steps).room, session) ==>
              w'.room == w.room && w'.log == w.log && w'.tasks == w.tasks && w'.inflight == w.inflight
  {
    hide Valid, Honest, Run, Next, P.Leads;
    var w := WorldAfter(cfg, revision, steps);
    var w' := Run(cfg, w, more);
    ServerFollowsProtocol(cfg, revision, steps);
    RunSimulates(cfg, w, more);
    RunAppend(cfg, Boot(revision), steps, more);
    DepartedIsGone(w, session);
    if Departed(w.room, session) {
      P.GoneForever(cfg, Abs(w), w.log, w'.history.events[|w.history.events|..], Abs(w'), w'.log, session);
      DepartedIsGone(w', session);
      DepartedIsInert(cfg, w', step, session);
    }
    RunAppend(cfg, Boot(revision), steps + more, [step]);
    RunOne(cfg, w', step);
  }

  lemma DepartedIsGone(w: World, session: u64)
    ensures Departed(w.room, session) <==> P.Gone(Abs(w), session)
  {
    forall p | p in w.room.players ensures MembersOf(w)[p].session == w.room.players[p].session {
    }
  }

  /** A successful join takes the least free seat under a session id nobody ever had. */
  lemma JoinIsFresh(cfg: Config, revision: u64, steps: seq<Step>, name: string)
    requires cfg.Valid() && revision >= 1
    ensures var w := WorldAfter(cfg, revision, steps);
            var e := Join(cfg, w.room, name);
            && (e.reply.Joined? <==> CanJoin(cfg, w.room, name))
            && (e.reply.Joined? ==>
                  && e.reply.session !in w.history.tickets
                  && 1 <= e.reply.player <= cfg.maximum && e.reply.player !in w.room.players
                  && forall n: u8 | 1 <= n < e.reply.player :: n in w.room.players)
  {
    hide Issued, InStep, Run, Next, Seat, Valid;
    var w := WorldAfter(cfg, revision, steps);
    ServerFollowsProtocol(cfg, revision, steps);
    OwedSessions(w);
    JoinOutcome(cfg, w.room, name);
    LeastFreeIsLeast(w.room.players.Keys, 1, cfg.maximum);
  }
}
