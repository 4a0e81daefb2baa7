/** Every step of the server is a run of protocol events: flags, queues and timers implement the five phases. */
module Refinement {
  import opened Bytes
  import opened Text
  import opened Frames
  import opened Actions
  import opened GameTunnel
  import opened Batching
  import opened Rosters
  import opened Consensus
  import opened RoomModel
  import opened RoomInvariant
  import opened Server
  import opened Tasks
  import P = Protocol

  // The protocol state a server stands for.

  /** A newcomer is announced once its own roster broadcast is out. */
  predicate Announced(w: World, session: u64)
  {
    !(session in w.inflight && w.inflight[session].update.RosterUpdate?)
  }

  function TicketOf(w: World, session: u64): (t: P.Ticket)
  {
    if session in w.history.tickets then w.history.tickets[session] else P.Ticket(Roster(0, []), 0)
  }

  function MemberOf(w: World, c: ConnectedPlayer): (m: P.Member)
  {
    P.Member(c.session, c.name, c.loaded, Announced(w, c.session), TicketOf(w, c.session))
  }

  function MembersOf(w: World): (members: P.Members)
    ensures members.Keys == w.room.players.Keys
  {
    map p | p in w.room.players :: MemberOf(w, w.room.players[p])
  }

  function Abs(w: World): (st: P.State)
  {
    P.State(Phase(w.room), w.room.revision, w.room.nextSession, MembersOf(w), w.room.gameplaySequence, |w.log|)
  }

  // What ties late sends and countdown tasks to the room.

  /** A late send belongs to a seated session; a roster is owed only by a player who is not ready yet. */
  predicate Owes(w: World, session: u64)
    requires session in w.inflight
  {
    var parcel := w.inflight[session];
    && HasSession(w.room.players, parcel.player, session)
    && match parcel.update
       case RosterUpdate(roster) => !w.room.players[parcel.player].ready && roster == TicketOf(w, session).roster
       case Chat(from, message) => from == parcel.player && ValidChatMessage(message)
       case _ => false
  }

  predicate Honest(w: World)
  {
    && (forall s | s in w.inflight :: Owes(w, s))
    && (forall s | s in w.history.tickets :: s < w.room.nextSession)
  }

  predicate Sound(cfg: Config, w: World)
    requires cfg.Valid()
  {
    Valid(cfg, w.room) && Honest(w) && Issued(w.room, w.tasks) && InStep(w.room, w.tasks)
  }

  /** The step from `w` to `w'` is a run of protocol events, and the history says which. */
  predicate Simulates(cfg: Config, w: World, w': World)
  {
    && w.history.events <= w'.history.events
    && P.Leads(cfg, Abs(w), w.log, w'.history.events[|w.history.events|..], Abs(w'), w'.log)
  }

  // Member tables.

  lemma SameMembers(w: World, w': World)
    requires SamePeople(w.room.players, w'.room.players)
    requires forall p | p in w.room.players :: w.room.players[p].loaded == w'.room.players[p].loaded
    requires forall p | p in w.room.players ::
               var s := w.room.players[p].session;
               Announced(w, s) == Announced(w', s) && TicketOf(w, s) == TicketOf(w', s)
    ensures MembersOf(w) == MembersOf(w')
  {
    forall p | p in w.room.players ensures MembersOf(w)[p] == MembersOf(w')[p] {
    }
  }

  lemma NamesAgree(w: World)
    ensures P.NamesOf(MembersOf(w)) == Names(w.room.players)
  {
  }

  // Timeslots.

  lemma {:induction false} DecodedMember(crc: Crc, frames: seq<Frame>, i: nat)
    requires i < |frames| && DecodeAll(crc, frames).Some?
    ensures DecodeTimeslot(crc, frames[i]).Ok?
    ensures forall a | a in DecodeTimeslot(crc, frames[i]).value.actions :: a in ActionsOf(DecodeAll(crc, frames).value)
  {
    var slots := DecodeAll(crc, frames).value;
    assert slots[1..] == DecodeAll(crc, frames[1..]).value;
    if i > 0 {
      DecodedMember(crc, frames[1..], i - 1);
    }
  }

  /** Every frame may be tunnelled and carries actions of `present` players only. */
  predicate ProperFrames(cfg: Config, frames: seq<Frame>, present: set<u8>)
  {
    forall i | 0 <= i < |frames| :: P.ProperSlot(cfg, ToBytes(frames[i]), present)
  }

  lemma TickFramesProper(cfg: Config, incrementMs: u16, actions: seq<PlayerAction>, present: set<u8>)
    requires ValidActions(actions) && forall i | 0 <= i < |actions| :: actions[i].player in present
    ensures TickFrames(cfg.crc, incrementMs, actions).Ok?
    ensures ProperFrames(cfg, TickFrames(cfg.crc, incrementMs, actions).value, present)
  {
    TickFramesCorrect(cfg.crc, incrementMs, actions);
    var frames := TickFrames(cfg.crc, incrementMs, actions).value;
    forall i | 0 <= i < |frames| ensures P.ProperSlot(cfg, ToBytes(frames[i]), present) {
      FrameRoundTrip(frames[i], MAX_TUNNELED_FRAME_BYTES);
      DecodedMember(cfg.crc, frames, i);
      var slot := DecodeTimeslot(cfg.crc, frames[i]).value;
      forall j | 0 <= j < |slot.actions| ensures slot.actions[j].player in present {
        assert slot.actions[j] in actions;
      }
    }
  }

  function Advanced(st: P.State, frames: nat): (st': P.State)
    requires st.frames + frames <= U64_MAX
  {
    st.(frames := st.frames + frames, emitted := st.emitted + frames)
  }

  lemma SlotAdvances(cfg: Config, st: P.State, frame: seq<u8>)
    requires st.phase == Playing && st.frames < U64_MAX && P.ProperSlot(cfg, frame, st.members.Keys)
    ensures P.Allowed(cfg, st, P.Slot(frame))
    ensures P.Apply(cfg, st, P.Slot(frame)) == Advanced(st, 1)
    ensures P.Sent(cfg, st, P.Slot(frame)) == [GameFrame(st.frames + 1, frame)]
  {
  }

  lemma {:induction false} NumberedLeads(cfg: Config, st: P.State, log: seq<Update>, frames: seq<Frame>)
    requires st.phase == Playing && ProperFrames(cfg, frames, st.members.Keys)
    ensures var sent := Numbered(frames, st.frames);
            && st.frames + |sent| <= U64_MAX
            && P.Leads(cfg, st, log, SlotEvents(sent), Advanced(st, |sent|), log + sent)
    decreases |frames|
  {
    hide P.Leads, P.Allowed, P.Apply, P.Sent, P.ProperSlot;
    var sent := Numbered(frames, st.frames);
    if sent == [] {
      assert log + sent == log;
      P.Stay(cfg, st, log);
    } else {
      assert P.ProperSlot(cfg, ToBytes(frames[0]), st.members.Keys);
      SlotAdvances(cfg, st, ToBytes(frames[0]));
      assert forall i | 0 <= i < |frames[1..]| :: frames[1..][i] == frames[i + 1];
      NumberedLeads(cfg, Advanced(st, 1), log + [sent[0]], frames[1..]);
      assert sent[1..] == Numbered(frames[1..], st.frames + 1);
      assert (log + [sent[0]]) + sent[1..] == log + sent;
      P.Prefix(cfg, st, log, P.Slot(ToBytes(frames[0])), SlotEvents(sent[1..]), Advanced(st, |sent|), log + sent);
    }
  }

  /** Draining the queue of a running game is a run of timeslot events. */
  lemma PublishLeads(cfg: Config, w: World, incrementMs: u16)
    requires cfg.Valid() && Valid(cfg, w.room) && w.room.gameplayActive
    ensures var published := PublishPending(cfg, w.room, incrementMs);
            P.Leads(cfg, Abs(w), w.log, SlotEvents(published.sent),
                  Abs(w.(room := published.room, log := w.log + published.sent)), w.log + published.sent)
    ensures PublishPending(cfg, w.room, incrementMs).failure != Some(GameplayFrameEncoding)
  {
    hide P.Leads, P.ProperSlot, ProperFrames, GoodSeat, Distinct, Consistent, Untouched, Served;
    assert Phase(w.room) == Playing by {
      PhaseMeaning(cfg, w.room);
    }
    TickFramesProper(cfg, incrementMs, w.room.pending, w.room.players.Keys);
    NumberedLeads(cfg, Abs(w), w.log, TickFrames(cfg.crc, incrementMs, w.room.pending).value);
    PublishAdvances(cfg, w, incrementMs);
  }

  lemma PublishAdvances(cfg: Config, w: World, incrementMs: u16)
    requires ValidActions(w.room.pending)
    ensures var published := PublishPending(cfg, w.room, incrementMs);
            && w.room.gameplaySequence + |published.sent| <= U64_MAX
            && published.sent == Numbered(TickFrames(cfg.crc, incrementMs, w.room.pending).value,
                w.room.gameplaySequence)
            && Abs(w.(room := published.room, log := w.log + published.sent)) == Advanced(Abs(w), |published.sent|)
  {
    hide TickFrames, Numbered, MemberOf;
    TickFramesCorrect(cfg.crc, incrementMs, w.room.pending);
    NumberedFits(TickFrames(cfg.crc, incrementMs, w.room.pending).value, w.room.gameplaySequence);
    var published := PublishPending(cfg, w.room, incrementMs);
    SameMembers(w, w.(room := published.room, log := w.log + published.sent));
  }

  // Calls that the protocol does not see: reports and chat bookkeeping.

  predicate Unseen(s: Room, s': Room)
  {
    && SameStanding(s.players, s'.players)
    && Phase(s) == Phase(s')
    && s.revision == s'.revision && s.nextSession == s'.nextSession && s.gameplaySequence == s'.gameplaySequence
  }

  /** Nothing is broadcast and no game or countdown begins. */
  predicate Quiet(s: Room, e: Effect)
  {
    Unseen(s, e.room) && e.sent == [] && !e.tail.SpawnCountdown? && !e.tail.SpawnGameplay?
  }

  lemma ActionQuiet(s: Room, p: u8, session: u64, sequence: u64, action: PlayerAction)
    ensures Quiet(s, SubmitAction(s, p, session, sequence, action))
  {
    hide SequenceError, SameStanding;
    SameStandingReflexive(s.players);
    if HasSession(s.players, p, session) {
      UpdateKeepsStanding(s.players, p, WithSequence(s, p, sequence).players[p]);
    }
  }

  lemma SameStandingReflexive(players: Players)
    ensures SameStanding(players, players)
  {
  }

  lemma KeepAliveQuiet(s: Room, p: u8, session: u64, sequence: u64, checksum: u32)
    ensures Quiet(s, SubmitKeepAlive(s, p, session, sequence, checksum))
  {
    hide SequenceError, Judge;
    if SubmitKeepAlive(s, p, session, sequence, checksum).reply == Done {
      var s' := WithChecksum(WithSequence(s, p, sequence), p, checksum);
      DropKeepsStanding(s'.players, Judge(QueuesOf(s'.players)).rounds);
    }
  }

  lemma ChatQuiet(s: Room, p: u8, session: u64, message: string, now: nat)
    ensures Quiet(s, PublishChat(s, p, session, message, now))
  {
    hide IsDuplicateChat, SameStanding;
    SameStandingReflexive(s.players);
    if HasSession(s.players, p, session) {
      UpdateKeepsStanding(s.players, p, s.players[p].(lastChat := Some(RecentChat(message, now))));
    }
  }

  /** What is owed is still owed, and by the same sessions, when nobody has moved or become ready. */
  lemma StandingHonest(w: World, w': World)
    requires Honest(w) && SameStanding(w.room.players, w'.room.players) && w'.room.nextSession == w.room.nextSession
    requires w'.inflight == w.inflight && w'.history.tickets == w.history.tickets
    ensures Honest(w') && MembersOf(w') == MembersOf(w)
  {
    SameMembers(w, w');
    forall s | s in w'.inflight ensures Owes(w', s) {
      assert Owes(w, s);
    }
  }

  lemma UnseenIsUnmoved(w: World, w': World)
    requires Honest(w) && Unseen(w.room, w'.room)
    requires w'.inflight == w.inflight && w'.history.tickets == w.history.tickets && w'.log == w.log
    ensures Abs(w') == Abs(w) && Honest(w')
  {
    hide Phase, SameStanding, Honest, MembersOf;
    StandingHonest(w, w');
  }

  /** What a call does to the world around the room. */
  lemma CallFrame(cfg: Config, w: World, step: Step)
    requires !step.FlushStep? && !step.WakeStep?
    ensures var e := CallEffect(cfg, w.room, step);
            var w' := Call(cfg, w, step);
            && w'.room == e.room && w'.log == w.log + e.sent
            && w'.history.events == w.history.events + CallEvents(w.room, step, e)
            && (!step.JoinStep? ==> w'.history.tickets == w.history.tickets)
            && (!step.JoinStep? && !step.ChatStep? ==> w'.inflight == w.inflight)
            && w'.tasks == w.tasks + Spawned(e.tail, cfg)
  {
    hide CallEffect, CallEvents, Spawned;
  }

  lemma ReportUnmoved(cfg: Config, w: World, step: Step)
    requires Honest(w) && (step.ActionStep? || step.KeepAliveStep?)
    ensures var w' := Call(cfg, w, step); Abs(w') == Abs(w) && w'.log == w.log && Honest(w')
  {
    hide Call, SubmitAction, SubmitKeepAlive, Unseen, Honest, Abs;
    CallFrame(cfg, w, step);
    match step {
      case ActionStep(p, session, sequence, action) => ActionQuiet(w.room, p, session, sequence, action);
      case KeepAliveStep(p, session, sequence, checksum) =>
        KeepAliveQuiet(w.room, p, session, sequence, checksum);
    }
    assert w.log + [] == w.log;
    UnseenIsUnmoved(w, Call(cfg, w, step));
  }

  lemma ChatUnmoved(cfg: Config, w: World, step: Step)
    requires Honest(w) && step.ChatStep? && Enabled(w, step)
    ensures var w' := Call(cfg, w, step); Abs(w') == Abs(w) && w'.log == w.log && Honest(w')
  {
    hide Unseen, Abs, IsDuplicateChat;
    var e := PublishChat(w.room, step.player, step.session, step.message, step.now);
    ChatQuiet(w.room, step.player, step.session, step.message, step.now);
    assert w.log + [] == w.log;
    var w1 := w.(room := e.room);
    UnseenIsUnmoved(w, w1);
    ChatOwed(w1, Call(cfg, w, step), step);
  }

  /** A chat owed by an idle session of a seated player. */
  lemma ChatOwed(w: World, w': World, step: Step)
    requires Honest(w) && step.ChatStep? && Enabled(w, step)
    requires w'.room == w.room && w'.log == w.log && w'.history.tickets == w.history.tickets
    requires || w'.inflight == w.inflight
             || (HasSession(w.room.players, step.player, step.session)
                 && w'.inflight == w.inflight[step.session := Parcel(step.player, Chat(step.player, step.message))])
    ensures Abs(w') == Abs(w) && Honest(w')
  {
    SameMembers(w, w');
    forall s | s in w'.inflight ensures Owes(w', s) {
      assert s in w.inflight ==> Owes(w, s);
    }
  }

  // Joining.

  lemma EnterAllowed(cfg: Config, w: World, name: string)
    requires cfg.Valid() && Valid(cfg, w.room) && CanJoin(cfg, w.room, name) && ValidPlayerName(name)
    requires LeastFree(w.room.players.Keys, 1, cfg.maximum).Some?
    ensures P.Allowed(cfg, Abs(w), P.Enter(name))
  {
    hide LeastFree, Seated, Consistent, Queued, Untouched, Served;
    assert Phase(w.room) == Waiting by {
      PhaseMeaning(cfg, w.room);
    }
    assert |MembersOf(w)| == |MembersOf(w).Keys| == |w.room.players.Keys| == |w.room.players|;
  }

  /** The member table after a newcomer has been seated and still owes its roster. */
  lemma SeatMembers(cfg: Config, w: World, w': World, id: u8, name: string, ticket: P.Ticket)
    requires Seated(cfg, w.room) && id !in w.room.players && w.room.nextSession < U64_MAX
    requires w'.room == Seat(w.room, id, name)
    requires w'.inflight == w.inflight[w.room.nextSession := Parcel(id, RosterUpdate(ticket.roster))]
    requires w'.history.tickets == w.history.tickets[w.room.nextSession := ticket]
    ensures MembersOf(w') == MembersOf(w)[id := P.Member(w.room.nextSession, name, false, false, ticket)]
  {
    hide Distinct;
    forall p | p in w'.room.players
      ensures MembersOf(w')[p] == MembersOf(w)[id := P.Member(w.room.nextSession, name, false, false, ticket)][p]
    {
      assert p in w.room.players ==> GoodSeat(cfg, w.room, p);
    }
  }

  lemma SeatHonest(cfg: Config, w: World, w': World, id: u8, name: string, ticket: P.Ticket)
    requires Seated(cfg, w.room) && id !in w.room.players && w.room.nextSession < U64_MAX
    requires Honest(w) && w'.room == Seat(w.room, id, name)
    requires w'.inflight == w.inflight[w.room.nextSession := Parcel(id, RosterUpdate(ticket.roster))]
    requires w'.history.tickets == w.history.tickets[w.room.nextSession := ticket]
    ensures Honest(w')
  {
    hide Seated, Honest;
    OwedSessions(w);
    forall s | s in w'.inflight ensures Owes(w', s) {
      if s != w.room.nextSession {
        OwesNow(w, s);
      }
    }
    assert forall s | s in w'.history.tickets :: s < w'.room.nextSession;
    HonestFrom(w');
  }

  lemma OwedSessions(w: World)
    requires Honest(w)
    ensures forall s | s in w.history.tickets :: s < w.room.nextSession
  {
  }

  lemma HonestFrom(w: World)
    requires forall s | s in w.inflight :: Owes(w, s)
    requires forall s | s in w.history.tickets :: s < w.room.nextSession
    ensures Honest(w)
  {
  }

  lemma SeatRoster(s: Room, id: u8, name: string)
    requires s.nextSession < U64_MAX
    ensures Seat(s, id, name).Roster() == RosterOf(SaturatingIncrement(s.revision), Names(s.players)[id := name])
  {
    assert Names(Seat(s, id, name).players) == Names(s.players)[id := name];
  }

  lemma EnterMoves(cfg: Config, st: P.State, name: string, id: u8, ticket: P.Ticket)
    requires P.Allowed(cfg, st, P.Enter(name)) && LeastFree(st.members.Keys, 1, cfg.maximum) == Some(id)
    requires ticket == P.Ticket(RosterOf(SaturatingIncrement(st.revision), P.NamesOf(st.members)[id := name]),
        st.emitted)
    ensures P.Sent(cfg, st, P.Enter(name)) == []
    ensures P.Apply(cfg, st, P.Enter(name)) ==
              st.(members := st.members[id := P.Member(st.nextSession, name, false, false, ticket)],
                  nextSession := st.nextSession + 1, revision := SaturatingIncrement(st.revision))
  {
    hide LeastFree;
  }

  lemma JoinSimulates(cfg: Config, w: World, name: string)
    requires cfg.Valid() && Sound(cfg, w) && ValidPlayerName(name)
    ensures var e := Join(cfg, w.room, name);
            var w' := Call(cfg, w, JoinStep(name));
            && P.Leads(cfg, Abs(w), w.log, CallEvents(w.room, JoinStep(name), e), Abs(w'), w'.log)
            && Honest(w')
  {
    hide P.Leads, P.Allowed, Seated, Consistent, Queued, Untouched, Served;
    hide Issued, InStep, Honest, LeastFree, Abs, Seat, Join;
    var w' := Call(cfg, w, JoinStep(name));
    JoinOutcome(cfg, w.room, name);
    assert w'.log == w.log;
    if CanJoin(cfg, w.room, name) {
      var id := LeastFree(w.room.players.Keys, 1, cfg.maximum).value;
      SeatSimulates(cfg, w, w', id, name, P.Ticket(Seat(w.room, id, name).Roster(), |w.log|));
    } else {
      P.Stay(cfg, Abs(w), w.log);
      SameStandingReflexive(w.room.players);
      UnseenIsUnmoved(w, w');
    }
  }

  lemma SeatSimulates(cfg: Config, w: World, w': World, id: u8, name: string, ticket: P.Ticket)
    requires cfg.Valid() && Sound(cfg, w) && CanJoin(cfg, w.room, name) && ValidPlayerName(name)
    requires LeastFree(w.room.players.Keys, 1, cfg.maximum) == Some(id) && id !in w.room.players
    requires ticket == P.Ticket(Seat(w.room, id, name).Roster(), |w.log|)
    requires w'.room == Seat(w.room, id, name) && w'.log == w.log
    requires w'.inflight == w.inflight[w.room.nextSession := Parcel(id, RosterUpdate(ticket.roster))]
    requires w'.history.tickets == w.history.tickets[w.room.nextSession := ticket]
    ensures P.Leads(cfg, Abs(w), w.log, [P.Enter(name)], Abs(w'), w'.log)
    ensures Honest(w')
  {
    hide P.Leads, P.Allowed, P.Apply, P.Sent, Seated, Consistent, Queued;
    hide Untouched, Served, Issued, InStep, Honest, LeastFree, MemberOf;
    SeatRoster(w.room, id, name);
    NamesAgree(w);
    EnterAllowed(cfg, w, name);
    SeatMembers(cfg, w, w', id, name, ticket);
    SeatHonest(cfg, w, w', id, name, ticket);
    EnterMoves(cfg, Abs(w), name, id, ticket);
    assert w.log + [] == w'.log;
    P.SingleEvent(cfg, Abs(w), w.log, P.Enter(name));
    assert Abs(w') == P.Apply(cfg, Abs(w), P.Enter(name)) by {
      PhaseMeaning(cfg, w.room);
    }
  }

  // Readiness and the countdown.

  lemma ReadyHonest(w: World, w': World, p: u8, session: u64)
    requires Honest(w) && HasSession(w.room.players, p, session) && session !in w.inflight
    requires w'.room.players == Ready(w.room, p).players && w'.room.nextSession == w.room.nextSession
    requires w'.inflight == w.inflight && w'.history.tickets == w.history.tickets
    ensures Honest(w') && MembersOf(w') == MembersOf(w)
  {
    SameMembers(w, w');
    forall s | s in w'.inflight ensures Owes(w', s) {
      assert Owes(w, s);
    }
  }

  /** When everybody is ready nobody owes a roster, so the countdown begins with everyone announced. */
  lemma ReadyMeansAnnounced(w: World)
    requires Honest(w) && AllReady(w.room.players)
    ensures P.AllAnnounced(MembersOf(w))
  {
    forall p | p in w.room.players ensures MembersOf(w)[p].announced {
      var session := w.room.players[p].session;
      if session in w.inflight {
        assert Owes(w, session);
      }
    }
  }

  lemma CountdownSimulates(cfg: Config, w: World, w': World)
    requires Phase(w.room) == Waiting && w.room.players != map[] && P.AllAnnounced(MembersOf(w))
    requires MembersOf(w') == MembersOf(w) && Phase(w'.room) == Countdown(cfg.initialSeconds)
    requires w'.room.revision == w.room.revision && w'.room.nextSession == w.room.nextSession
    requires w'.room.gameplaySequence == w.room.gameplaySequence
    requires w'.log == w.log + [CountdownUpdate(cfg.initialSeconds)]
    ensures P.Leads(cfg, Abs(w), w.log, [P.BeginCountdown], Abs(w'), w'.log)
  {
    hide P.Leads, MembersOf, Phase;
    assert MembersOf(w).Keys == w.room.players.Keys;
    P.SingleEvent(cfg, Abs(w), w.log, P.BeginCountdown);
  }

  lemma OneUnready(players: Players, p: u8)
    requires p in players && !players[p].ready
    ensures !AllReady(players)
  {
  }

  lemma ReadySimulates(cfg: Config, w: World, p: u8, session: u64)
    requires cfg.Valid() && Sound(cfg, w) && session !in w.inflight
    ensures var step := ReadyStep(p, session);
            var e := MarkReady(cfg, w.room, p, session);
            var w' := Call(cfg, w, step);
            && P.Leads(cfg, Abs(w), w.log, CallEvents(w.room, step, e), Abs(w'), w'.log)
            && Honest(w')
  {
    hide Call, P.Leads, Seated, Queued, Untouched, Served, Issued, InStep, Honest, MembersOf, AllReady;
    CallFrame(cfg, w, ReadyStep(p, session));
    var w' := Call(cfg, w, ReadyStep(p, session));
    P.Stay(cfg, Abs(w), w.log);
    if !HasSession(w.room.players, p, session) || w.room.players[p].ready {
      assert w'.log == w.log;
      SameStandingReflexive(w.room.players);
      UnseenIsUnmoved(w, w');
    } else {
      ReadyHonest(w, w', p, session);
      OneUnready(w.room.players, p);
      if w'.room.countdownActive {
        ReadyMeansAnnounced(w');
        CountdownSimulates(cfg, w, w');
      } else {
        assert w'.log == w.log;
      }
    }
  }

  lemma ManualStartSimulates(cfg: Config, w: World, p: u8, session: u64)
    requires cfg.Valid() && Sound(cfg, w)
    ensures var step := ManualStartStep(p, session);
            var e := RequestManualStart(cfg, w.room, p, session);
            var w' := Call(cfg, w, step);
            && P.Leads(cfg, Abs(w), w.log, CallEvents(w.room, step, e), Abs(w'), w'.log)
            && Honest(w')
  {
    hide Call, P.Leads, Seated, Queued, Untouched, Served, Issued, InStep, Honest, MembersOf, AllReady;
    CallFrame(cfg, w, ManualStartStep(p, session));
    var w' := Call(cfg, w, ManualStartStep(p, session));
    P.Stay(cfg, Abs(w), w.log);
    SameStandingReflexive(w.room.players);
    if w'.room.countdownActive && !w.room.countdownActive {
      StandingHonest(w, w');
      ReadyMeansAnnounced(w);
      CountdownSimulates(cfg, w, w');
    } else {
      assert w'.log == w.log;
      UnseenIsUnmoved(w, w');
    }
  }

  // Loading and the beginning of gameplay.

  /** The event of a hand-over to the gameplay actor. */
  function PlayEvents(tail: Tail): (events: seq<P.Event>)
  {
    if tail.SpawnGameplay? then [P.Play] else []
  }

  lemma BegunMembers(w: World, w': World)
    requires w'.room.players == w.room.players && w'.inflight == w.inflight && w'.history.tickets == w.history.tickets
    ensures MembersOf(w') == MembersOf(w)
    ensures Honest(w) && w'.room.nextSession == w.room.nextSession ==> Honest(w')
  {
    SameStandingReflexive(w.room.players);
    SameMembers(w, w');
    if Honest(w) && w'.room.nextSession == w.room.nextSession {
      StandingHonest(w, w');
    }
  }

  lemma PlaySimulates(cfg: Config, w: World, w': World)
    requires w'.room == BeginGameplayIfReady(w.room).room && w'.log == w.log
    requires w'.inflight == w.inflight && w'.history.tickets == w.history.tickets
    ensures P.Leads(cfg, Abs(w), w.log, PlayEvents(BeginGameplayIfReady(w.room).tail), Abs(w'), w'.log)
    ensures Honest(w) ==> Honest(w')
  {
    hide P.Leads, MembersOf, AllLoaded, Honest;
    BegunMembers(w, w');
    P.Stay(cfg, Abs(w), w.log);
    if BeginGameplayIfReady(w.room).tail.SpawnGameplay? {
      LoadedMembers(w);
      assert |MembersOf(w)| == |MembersOf(w).Keys| == |w.room.players.Keys| == |w.room.players|;
      assert w.log + [] == w'.log;
      P.SingleEvent(cfg, Abs(w), w.log, P.Play);
    }
  }

  lemma LoadedMembers(w: World)
    requires AllLoaded(w.room.players)
    ensures P.EveryoneLoaded(MembersOf(w))
  {
  }

  lemma LoadMembers(w: World, w1: World, p: u8)
    requires p in w.room.players && w1.room.players == Loaded(w.room, p).players
    requires w1.inflight == w.inflight && w1.history.tickets == w.history.tickets
    requires w1.room.nextSession == w.room.nextSession
    ensures MembersOf(w1) == MembersOf(w)[p := MembersOf(w)[p].(loaded := true)]
    ensures Honest(w) ==> Honest(w1)
  {
    if Honest(w) {
      forall s | s in w1.inflight ensures Owes(w1, s) {
        assert Owes(w, s);
      }
    }
  }

  lemma LoadSimulates(cfg: Config, w: World, w1: World, p: u8)
    requires cfg.Valid() && Valid(cfg, w.room) && Honest(w)
    requires p in w.room.players && !w.room.players[p].loaded && w.room.started && !w.room.gameEnded
    requires w1.room == Loaded(w.room, p) && w1.log == w.log + [PlayerLoaded(p)]
    requires w1.inflight == w.inflight && w1.history.tickets == w.history.tickets
    ensures P.Leads(cfg, Abs(w), w.log, [P.Load(p)], Abs(w1), w1.log)
    ensures Honest(w1)
  {
    hide P.Leads, MembersOf, AllLoaded, Honest, Seated, Queued, Untouched, Served;
    LoadMembers(w, w1, p);
    assert MembersOf(w)[p] == MemberOf(w, w.room.players[p]) by {
      MemberAt(w, p);
    }
    OneUnloaded(w.room.players, p);
    P.SingleEvent(cfg, Abs(w), w.log, P.Load(p));
  }

  lemma MemberAt(w: World, p: u8)
    requires p in w.room.players
    ensures MembersOf(w)[p] == MemberOf(w, w.room.players[p])
  {
  }

  lemma OneUnloaded(players: Players, p: u8)
    requires p in players && !players[p].loaded
    ensures !AllLoaded(players)
  {
  }

  lemma LoadedSimulates(cfg: Config, w: World, p: u8, session: u64)
    requires cfg.Valid() && Sound(cfg, w)
    ensures var step := LoadedStep(p, session);
            var e := MarkLoaded(w.room, p, session);
            var w' := Call(cfg, w, step);
            && P.Leads(cfg, Abs(w), w.log, CallEvents(w.room, step, e), Abs(w'), w'.log)
            && Honest(w')
  {
    hide Call, P.Leads, Valid, Issued, InStep, Honest, MembersOf, Abs, BeginGameplayIfReady;
    var e := MarkLoaded(w.room, p, session);
    CallFrame(cfg, w, LoadedStep(p, session));
    var w' := Call(cfg, w, LoadedStep(p, session));
    if e.sent == [] {
      assert w'.log == w.log;
      P.Stay(cfg, Abs(w), w.log);
      SameStandingReflexive(w.room.players);
      UnseenIsUnmoved(w, w');
    } else {
      var w1 := w.(room := Loaded(w.room, p), log := w.log + [PlayerLoaded(p)]);
      LoadSimulates(cfg, w, w1, p);
      PlaySimulates(cfg, w1, w');
      P.Chain(cfg, Abs(w), w.log, [P.Load(p)], Abs(w1), w1.log, PlayEvents(e.tail), Abs(w'), w'.log);
    }
  }

  // Leaving.

  /** The room once the seat is free, before a waiting game is started for the others. */
  function Vacated(s: Room, p: u8): (s': Room)
  {
    if Without(s, p).players == map[] then ResetGame(Without(s, p)) else Without(s, p)
  }

  lemma RemoveBegins(s: Room, p: u8, reason: LeaveReason)
    requires p in s.players
    ensures var e := Remove(s, p, reason);
            && e.room == BeginGameplayIfReady(Vacated(s, p)).room
            && PlayEvents(e.tail) == PlayEvents(BeginGameplayIfReady(Vacated(s, p)).tail)
            && e.sent == DepartureUpdates(s, p, reason)
            && p !in e.room.players
  {
    hide AllLoaded, DepartureUpdates;
  }

  lemma DepartHonest(w: World, w': World, p: u8, session: u64)
    requires Honest(w) && HasSession(w.room.players, p, session) && session !in w.inflight
    requires w'.room.players == w.room.players - {p} && w'.room.nextSession == w.room.nextSession
    requires w'.inflight == w.inflight && w'.history.tickets == w.history.tickets
    ensures Honest(w') && MembersOf(w') == MembersOf(w) - {p}
  {
    forall s | s in w'.inflight ensures Owes(w', s) {
      assert Owes(w, s);
    }
  }

  lemma DepartureRoster(w: World, p: u8)
    ensures Without(w.room, p).Roster()
            == RosterOf(SaturatingIncrement(w.room.revision), P.NamesOf(MembersOf(w) - {p}))
  {
    assert Names(Without(w.room, p).players) == P.NamesOf(MembersOf(w) - {p});
  }

  lemma DepartSimulates(cfg: Config, w: World, w': World, p: u8, session: u64, reason: LeaveReason)
    requires cfg.Valid() && Valid(cfg, w.room) && Honest(w)
    requires HasSession(w.room.players, p, session) && session !in w.inflight
    requires w'.room == Vacated(w.room, p) && w'.log == w.log + DepartureUpdates(w.room, p, reason)
    requires w'.inflight == w.inflight && w'.history.tickets == w.history.tickets
    ensures P.Leads(cfg, Abs(w), w.log, [P.Depart(p, reason)], Abs(w'), w'.log)
    ensures Honest(w')
  {
    hide P.Leads, P.Allowed, P.Apply, P.Sent, MembersOf, Honest, Seated, Queued, Untouched, Served, AllLoaded, AllReady;
    DepartHonest(w, w', p, session);
    DepartureRoster(w, p);
    MemberAt(w, p);
    DepartMoves(cfg, Abs(w), p, reason);
    P.SingleEvent(cfg, Abs(w), w.log, P.Depart(p, reason));
    PhaseMeaning(cfg, w.room);
  }

  /** A departure in terms of protocol states. */
  lemma DepartMoves(cfg: Config, st: P.State, p: u8, reason: LeaveReason)
    requires p in st.members && st.members[p].announced
    ensures P.Allowed(cfg, st, P.Depart(p, reason))
    ensures var roster := RosterOf(SaturatingIncrement(st.revision), P.NamesOf(st.members - {p}));
            P.Sent(cfg, st, P.Depart(p, reason)) ==
              if st.phase == Waiting then [RosterUpdate(roster)]
              else if st.phase.Countdown? then [RosterUpdate(roster), CountdownCancelled]
              else [PlayerLeft(p, reason, roster)]
    ensures var empty := st.members - {p} == map[];
            P.Apply(cfg, st, P.Depart(p, reason)) ==
              st.(members := st.members - {p}, revision := SaturatingIncrement(st.revision),
                  phase := if empty || st.phase.Countdown? then Waiting else st.phase,
                  frames := if empty then 0 else st.frames,
                  emitted := st.emitted + |P.Sent(cfg, st, P.Depart(p, reason))|)
  {
  }

  lemma {:induction false} SlotEventsAppend(a: seq<Update>, b: seq<Update>)
    ensures SlotEvents(a + b) == SlotEvents(a) + SlotEvents(b)
  {
    if a == [] {
      assert a + b == b;
    } else {
      assert (a + b)[1..] == a[1..] + b;
      SlotEventsAppend(a[1..], b);
    }
  }

  lemma DeparturesCarryNoSlots(s: Room, p: u8, reason: LeaveReason, sent: seq<Update>)
    ensures SlotEvents(sent + DepartureUpdates(s, p, reason)) == SlotEvents(sent)
  {
    var updates := DepartureUpdates(s, p, reason);
    SlotEventsAppend(sent, updates);
    assert |updates| == 2 ==> SlotEvents(updates[1..]) == [];
    assert SlotEvents(updates) == [];
  }

  /** Removing a player is a departure, followed by the game when it was the last one loading. */
  lemma RemoveSimulates(cfg: Config, w: World, w': World, p: u8, session: u64, reason: LeaveReason)
    requires cfg.Valid() && Valid(cfg, w.room) && Honest(w)
    requires HasSession(w.room.players, p, session) && session !in w.inflight
    requires var e := Remove(w.room, p, reason); w'.room == e.room && w'.log == w.log + e.sent
    requires w'.inflight == w.inflight && w'.history.tickets == w.history.tickets
    ensures var events := [P.Depart(p, reason)] + PlayEvents(Remove(w.room, p, reason).tail);
            P.Leads(cfg, Abs(w), w.log, events, Abs(w'), w'.log)
    ensures Honest(w')
  {
    hide P.Leads, Honest, Valid, Abs, Remove, DepartureUpdates, BeginGameplayIfReady, Vacated;
    RemoveBegins(w.room, p, reason);
    var w1 := w.(room := Vacated(w.room, p), log := w.log + DepartureUpdates(w.room, p, reason));
    DepartSimulates(cfg, w, w1, p, session, reason);
    PlaySimulates(cfg, w1, w');
    P.Chain(cfg, Abs(w), w.log, [P.Depart(p, reason)], Abs(w1), w1.log,
            PlayEvents(Remove(w.room, p, reason).tail), Abs(w'), w'.log);
  }

  /** The room right after a leaving player's pending actions have been flushed. */
  function Flushed(cfg: Config, s: Room): (r: Published)
  {
    if s.gameplayActive && s.pending != [] then PublishPending(cfg, s, 0) else Published(s, [], None)
  }

  lemma LeaveParts(cfg: Config, s: Room, p: u8, session: u64, reason: LeaveReason)
    requires HasSession(s.players, p, session)
    ensures var flushed := Flushed(cfg, s);
            var e := Leave(cfg, s, p, session, reason);
            if flushed.failure.Some? then
              e == Effect(flushed.room, flushed.sent, Failed(flushed.failure.value), Nothing) && p in e.room.players
            else
              var removed := Remove(flushed.room, p, reason);
              e == removed.(sent := flushed.sent + removed.sent)
  {
    hide TickFrames, Numbered, Remove;
    var removed := Remove(s, p, reason);
    assert [] + removed.sent == removed.sent;
  }

  lemma LeaveByStranger(cfg: Config, s: Room, p: u8, session: u64, reason: LeaveReason)
    requires !HasSession(s.players, p, session)
    ensures Leave(cfg, s, p, session, reason) == Effect(s, [], Done, Nothing)
  {
  }

  lemma FlushedKeepsPeople(cfg: Config, s: Room)
    ensures Flushed(cfg, s).room.players == s.players && Flushed(cfg, s).room.nextSession == s.nextSession
  {
    hide TickFrames, Numbered;
  }

  lemma FlushedSimulates(cfg: Config, w: World, w1: World)
    requires cfg.Valid() && Valid(cfg, w.room) && Honest(w)
    requires var flushed := Flushed(cfg, w.room); w1.room == flushed.room && w1.log == w.log + flushed.sent
    requires w1.inflight == w.inflight && w1.history.tickets == w.history.tickets
    ensures P.Leads(cfg, Abs(w), w.log, SlotEvents(Flushed(cfg, w.room).sent), Abs(w1), w1.log)
    ensures Valid(cfg, w1.room) && Honest(w1) && w1.room.players == w.room.players
  {
    hide P.Leads, Honest, Valid, PublishPending, Abs, SlotEvents;
    FlushedKeepsPeople(cfg, w.room);
    SameStandingReflexive(w.room.players);
    StandingHonest(w, w1);
    if w.room.gameplayActive && w.room.pending != [] {
      PublishLeads(cfg, w, 0);
      PublishKeepsValid(cfg, w.room, 0);
      AbsOfRoom(w.(room := w1.room, log := w1.log), w1);
    } else {
      assert w1.log == w.log;
      P.Stay(cfg, Abs(w), w.log);
      AbsOfRoom(w, w1);
      NoSlots();
    }
  }

  lemma LeaveSimulates(cfg: Config, w: World, p: u8, session: u64, reason: LeaveReason)
    requires cfg.Valid() && Sound(cfg, w) && session !in w.inflight
    ensures var step := LeaveStep(p, session, reason);
            var e := Leave(cfg, w.room, p, session, reason);
            var w' := Call(cfg, w, step);
            && P.Leads(cfg, Abs(w), w.log, CallEvents(w.room, step, e), Abs(w'), w'.log)
            && Honest(w')
  {
    hide Call, P.Leads, Honest, Valid, Issued, InStep, Abs, Remove, Flushed, SlotEvents;
    CallFrame(cfg, w, LeaveStep(p, session, reason));
    var w' := Call(cfg, w, LeaveStep(p, session, reason));
    if HasSession(w.room.players, p, session) {
      hide Leave;
      LeaveParts(cfg, w.room, p, session, reason);
      var flushed := Flushed(cfg, w.room);
      var w1 := w.(room := flushed.room, log := w.log + flushed.sent);
      FlushedSimulates(cfg, w, w1);
      if flushed.failure.Some? {
        FlushedSimulates(cfg, w, w');
      } else {
        var removed := Remove(flushed.room, p, reason);
        RemoveBegins(flushed.room, p, reason);
        DeparturesCarryNoSlots(flushed.room, p, reason, flushed.sent);
        assert (w.log + flushed.sent) + removed.sent == w.log + (flushed.sent + removed.sent);
        RemoveSimulates(cfg, w1, w', p, session, reason);
        P.Chain(cfg, Abs(w), w.log, SlotEvents(flushed.sent), Abs(w1), w1.log,
                [P.Depart(p, reason)] + PlayEvents(removed.tail), Abs(w'), w'.log);
      }
    } else {
      assert w'.log == w.log;
      P.Stay(cfg, Abs(w), w.log);
      SameStandingReflexive(w.room.players);
      UnseenIsUnmoved(w, w');
      NoSlots();
    }
  }

  lemma NoSlots()
    ensures SlotEvents([]) == []
  {
  }

  // Late sends.

  lemma AnnounceHonest(w: World, w': World, session: u64)
    requires Honest(w) && session in w.inflight && w'.room == w.room
    requires w'.inflight == w.inflight - {session} && w'.history.tickets == w.history.tickets
    ensures Honest(w')
  {
    forall s | s in w'.inflight ensures Owes(w', s) {
      assert Owes(w, s);
    }
  }

  lemma AnnounceMembers(w: World, w': World, session: u64, p: u8)
    requires HasSession(w.room.players, p, session) && w'.room == w.room
    requires w'.inflight == w.inflight - {session} && w'.history.tickets == w.history.tickets
    requires Distinct(w.room.players)
    ensures MembersOf(w') == MembersOf(w)[p := MembersOf(w)[p].(announced := true)]
  {
  }

  lemma FlushSimulates(cfg: Config, w: World, session: u64)
    requires cfg.Valid() && Sound(cfg, w) && session in w.inflight
    ensures var w' := Flush(w, session);
            && P.Leads(cfg, Abs(w), w.log, w'.history.events[|w.history.events|..], Abs(w'), w'.log)
            && w.history.events <= w'.history.events
            && Honest(w')
  {
    hide P.Leads, MembersOf, Honest, Queued, Untouched, Served, Issued, InStep, GoodSeat, Distinct;
    var w' := Flush(w, session);
    var p := w.inflight[session].player;
    OwesNow(w, session);
    AnnounceHonest(w, w', session);
    AnnounceMembers(w, w', session, p);
    MemberAt(w, p);
    var members := MembersOf(w);
    if w.inflight[session].update.RosterUpdate? {
      OneUnready(w.room.players, p);
      P.SingleEvent(cfg, Abs(w), w.log, P.Announce(p));
    } else {
      assert members[p := members[p].(announced := true)] == members;
      P.SingleEvent(cfg, Abs(w), w.log, P.Say(p, w.inflight[session].update.message));
    }
  }

  lemma OwesNow(w: World, session: u64)
    requires Honest(w) && session in w.inflight
    ensures Owes(w, session)
  {
  }

  // Tasks.

  /** Waking a task leaves the late sends and tickets alone. */
  predicate OnlyRoomMoved(w: World, w': World)
  {
    && w'.inflight == w.inflight && w'.history.tickets == w.history.tickets
    && w'.room.players == w.room.players && w'.room.nextSession == w.room.nextSession
  }

  lemma TickSimulates(cfg: Config, w: World, w': World, g: u64, remaining: u8)
    requires cfg.Valid() && Valid(cfg, w.room) && OnlyRoomMoved(w, w')
    requires w.room.countdownActive && w.room.countdownGeneration == g ==> w.room.countdownRemaining == Some(remaining)
    requires remaining > cfg.stepSeconds
    requires var (room, sent, live) := CountdownTick(w.room, g, remaining - cfg.stepSeconds);
             w'.room == room && w'.log == w.log + sent
    ensures P.Leads(cfg, Abs(w), w.log, if CountdownMatches(w.room, g) then [P.Tick] else [], Abs(w'), w'.log)
  {
    hide P.Leads, MembersOf, Honest, AllReady, Seated, Queued, Untouched, Served;
    BegunMembers(w, w');
    if CountdownMatches(w.room, g) {
      PhaseMeaning(cfg, w.room);
      P.SingleEvent(cfg, Abs(w), w.log, P.Tick);
    } else {
      assert w'.log == w.log;
      P.Stay(cfg, Abs(w), w.log);
    }
  }

  lemma BeginSimulates(cfg: Config, w: World, w': World, g: u64, remaining: u8)
    requires cfg.Valid() && Valid(cfg, w.room) && OnlyRoomMoved(w, w')
    requires w.room.countdownActive && w.room.countdownGeneration == g ==> w.room.countdownRemaining == Some(remaining)
    requires remaining <= cfg.stepSeconds
    requires var (room, sent) := FinishCountdown(w.room, g); w'.room == room && w'.log == w.log + sent
    ensures P.Leads(cfg, Abs(w), w.log, if CountdownMatches(w.room, g) then [P.Begin] else [], Abs(w'), w'.log)
  {
    hide P.Leads, MembersOf, Honest, AllReady, Seated, Queued, Untouched, Served;
    BegunMembers(w, w');
    if CountdownMatches(w.room, g) {
      PhaseMeaning(cfg, w.room);
      P.SingleEvent(cfg, Abs(w), w.log, P.Begin);
    } else {
      assert w'.log == w.log;
      P.Stay(cfg, Abs(w), w.log);
    }
  }

  lemma GameplaySimulates(cfg: Config, w: World, w': World, g: u64)
    requires cfg.Valid() && Valid(cfg, w.room) && OnlyRoomMoved(w, w')
    requires var (room, sent, result) := GameplayTick(cfg, w.room, g); w'.room == room && w'.log == w.log + sent
    ensures P.Leads(cfg, Abs(w), w.log, SlotEvents(GameplayTick(cfg, w.room, g).1), Abs(w'), w'.log)
  {
    hide P.Leads, MembersOf, Honest, Valid, TickFrames, Numbered, Phase;
    if GameplayMatches(w.room, g) {
      PublishLeads(cfg, w, cfg.incrementMs);
      BegunMembers(w.(room := w'.room, log := w'.log), w');
    } else {
      assert w'.log == w.log;
      P.Stay(cfg, Abs(w), w.log);
      BegunMembers(w, w');
    }
  }

  lemma EndSimulates(cfg: Config, w: World, w': World, cause: EndReason)
    requires cfg.Valid() && Valid(cfg, w.room) && OnlyRoomMoved(w, w')
    requires var e := EndGameNow(w.room, cause); w'.room == e.room && w'.log == w.log + e.sent
    ensures var events := if EndGameNow(w.room, cause).sent != [] then [P.End(cause)] else [];
            P.Leads(cfg, Abs(w), w.log, events, Abs(w'), w'.log)
  {
    hide P.Leads, MembersOf, Honest, AllReady, AllLoaded, Seated, Queued, Untouched, Served;
    BegunMembers(w, w');
    if EndGameNow(w.room, cause).sent != [] {
      PhaseMeaning(cfg, w.room);
      P.SingleEvent(cfg, Abs(w), w.log, P.End(cause));
    } else {
      assert w'.log == w.log;
      P.Stay(cfg, Abs(w), w.log);
    }
  }

  lemma WakeSimulates(cfg: Config, w: World, i: nat)
    requires cfg.Valid() && Sound(cfg, w) && i < |w.tasks| && !w.tasks[i].done
    ensures var r := WakeJob(cfg, w.room, w.tasks[i].job);
            P.Leads(cfg, Abs(w), w.log, r.events, Abs(Wake(cfg, w, i)), Wake(cfg, w, i).log)
  {
    hide P.Leads, Honest, Valid, Issued, Abs, PublishPending, EndGameNow, AllReady;
    var w' := Wake(cfg, w, i);
    WakeMovesRoom(cfg, w, i);
    assert Timely(w.room, w.tasks[i]);
    match w.tasks[i].job
    case CountdownJob(g, remaining) =>
      if remaining > cfg.stepSeconds {
        TickSimulates(cfg, w, w', g, remaining);
      } else {
        BeginSimulates(cfg, w, w', g, remaining);
      }
    case GameplayJob(g) => GameplaySimulates(cfg, w, w', g);
    case LastPlayerJob(g) =>
      assert w'.log == w.log;
      P.Stay(cfg, Abs(w), w.log);
      SameStandingReflexive(w.room.players);
      AbsOfRoom(w, w');
    case EndGameJob(cause) => EndSimulates(cfg, w, w', cause);
  }

  lemma AbsOfRoom(w: World, w': World)
    requires w'.room == w.room && w'.log == w.log
    requires w'.inflight == w.inflight && w'.history.tickets == w.history.tickets
    ensures Abs(w') == Abs(w)
  {
    BegunMembers(w, w');
  }

  lemma WakeMovesRoom(cfg: Config, w: World, i: nat)
    requires i < |w.tasks|
    ensures OnlyRoomMoved(w, Wake(cfg, w, i))
  {
    hide TickFrames, Numbered, AllReady, SlotEvents;
  }

  // Every step.

  lemma CallKeepsValid(cfg: Config, w: World, step: Step)
    requires cfg.Valid() && Valid(cfg, w.room) && Enabled(w, step) && !step.FlushStep? && !step.WakeStep?
    ensures Valid(cfg, CallEffect(cfg, w.room, step).room)
  {
    hide Valid, MarkReady, MarkLoaded, RequestManualStart, Leave, Join, SubmitAction, SubmitKeepAlive, PublishChat;
    match step
    case JoinStep(name) => JoinKeepsValid(cfg, w.room, name);
    case ReadyStep(p, session) => MarkReadyKeepsValid(cfg, w.room, p, session);
    case LoadedStep(p, session) => MarkLoadedKeepsValid(cfg, w.room, p, session);
    case ActionStep(p, session, sequence, action) => SubmitActionKeepsValid(cfg, w.room, p, session, sequence, action);
    case KeepAliveStep(p, session, sequence, checksum) =>
      SubmitKeepAliveKeepsValid(cfg, w.room, p, session, sequence, checksum);
    case ChatStep(p, session, message, now) => PublishChatKeepsValid(cfg, w.room, p, session, message, now);
    case ManualStartStep(p, session) => ManualStartKeepsValid(cfg, w.room, p, session);
    case LeaveStep(p, session, reason) => LeaveKeepsValid(cfg, w.room, p, session, reason);
  }

  lemma WakeKeepsValid(cfg: Config, s: Room, t: Task)
    requires cfg.Valid() && Valid(cfg, s) && Timely(s, t) && !t.done
    ensures Valid(cfg, WakeJob(cfg, s, t.job).room)
  {
    hide Valid, PublishPending, CountdownTick, FinishCountdown, EndGameNow, SlotEvents;
    match t.job
    case CountdownJob(g, remaining) =>
      if remaining > cfg.stepSeconds {
        CountdownTickKeepsValid(cfg, s, g, remaining - cfg.stepSeconds);
      } else {
        FinishCountdownKeepsValid(cfg, s, g);
      }
    case GameplayJob(g) =>
      if GameplayMatches(s, g) {
        PublishKeepsValid(cfg, s, cfg.incrementMs);
      }
    case LastPlayerJob(g) =>
    case EndGameJob(cause) => EndGameKeepsValid(cfg, s, cause);
  }

  lemma CallSimulates(cfg: Config, w: World, step: Step)
    requires cfg.Valid() && Sound(cfg, w) && Enabled(w, step) && !step.FlushStep? && !step.WakeStep?
    ensures var e := CallEffect(cfg, w.room, step);
            var w' := Call(cfg, w, step);
            && P.Leads(cfg, Abs(w), w.log, CallEvents(w.room, step, e), Abs(w'), w'.log)
            && Honest(w')
  {
    hide Call, P.Leads, Honest, Sound, Abs;
    hide MarkReady, MarkLoaded, RequestManualStart, Leave, Join, SubmitAction, SubmitKeepAlive, PublishChat;
    match step
    case JoinStep(name) => JoinSimulates(cfg, w, name);
    case ReadyStep(p, session) => ReadySimulates(cfg, w, p, session);
    case LoadedStep(p, session) => LoadedSimulates(cfg, w, p, session);
    case ManualStartStep(p, session) => ManualStartSimulates(cfg, w, p, session);
    case LeaveStep(p, session, reason) => LeaveSimulates(cfg, w, p, session, reason);
    case ChatStep(_, _, _, _) =>
      SoundParts(cfg, w);
      ChatUnmoved(cfg, w, step);
      P.Stay(cfg, Abs(w), w.log);
    case _ =>
      SoundParts(cfg, w);
      ReportUnmoved(cfg, w, step);
      P.Stay(cfg, Abs(w), w.log);
  }

  lemma SoundParts(cfg: Config, w: World)
    requires cfg.Valid() && Sound(cfg, w)
    ensures Valid(cfg, w.room) && Honest(w) && Issued(w.room, w.tasks) && InStep(w.room, w.tasks)
  {
  }

  /** Whatever step is taken, the server stays sound and the step is a run of the protocol. */
  lemma StepSimulates(cfg: Config, w: World, step: Step)
    requires cfg.Valid() && Sound(cfg, w)
    ensures Sound(cfg, Next(cfg, w, step)) && Simulates(cfg, w, Next(cfg, w, step))
  {
    hide Call, Wake, P.Leads, Honest, Valid, Issued, InStep, Abs, Advances, CallEvents, CallEffect;
    var w' := Next(cfg, w, step);
    var events := w.history.events;
    if !Enabled(w, step) {
      assert events[|events|..] == [];
      P.Stay(cfg, Abs(w), w.log);
    } else if step.FlushStep? {
      FlushSimulates(cfg, w, step.session);
    } else if step.WakeStep? {
      WakeSound(cfg, w, step.task);
    } else {
      CallSimulates(cfg, w, step);
      CallKeepsValid(cfg, w, step);
      CallFrame(cfg, w, step);
      var e := CallEffect(cfg, w.room, step);
      CallAdvances(cfg, w.room, step);
      CallKeepsOrder(cfg, w.room, e.room, e.tail, w.tasks);
      assert (events + CallEvents(w.room, step, e))[|events|..] == CallEvents(w.room, step, e);
    }
  }

  lemma WakeSound(cfg: Config, w: World, i: nat)
    requires cfg.Valid() && Sound(cfg, w) && i < |w.tasks| && !w.tasks[i].done
    ensures Sound(cfg, Wake(cfg, w, i)) && Simulates(cfg, w, Wake(cfg, w, i))
  {
    hide WakeJob, P.Leads, Honest, Valid, Issued, Abs, GameplayTick;
    var w' := Wake(cfg, w, i);
    var r := WakeJob(cfg, w.room, w.tasks[i].job);
    assert Timely(w.room, w.tasks[i]);
    WakeSimulates(cfg, w, i);
    WakeMovesRoom(cfg, w, i);
    BegunMembers(w, w');
    WakeKeepsValid(cfg, w.room, w.tasks[i]);
    WakeKeepsOrder(cfg, w.room, w.tasks, i);
    assert (w.history.events + r.events)[|w.history.events|..] == r.events;
  }

  lemma BootIsSound(cfg: Config, revision: u64)
    requires cfg.Valid() && revision >= 1
    ensures Sound(cfg, Boot(revision)) && Abs(Boot(revision)) == P.Initial(revision)
  {
    FreshIsValid(cfg, revision);
    assert MembersOf(Boot(revision)) == map[];
  }

  /** Any run is a run of the protocol. */
  lemma {:induction false} RunSimulates(cfg: Config, w: World, steps: seq<Step>)
    requires cfg.Valid() && Sound(cfg, w)
    ensures Sound(cfg, Run(cfg, w, steps)) && Simulates(cfg, w, Run(cfg, w, steps))
    decreases |steps|
  {
    hide Sound, P.Leads, Abs, Next;
    var events := w.history.events;
    if steps == [] {
      P.Stay(cfg, Abs(w), w.log);
      assert events[|events|..] == [];
    } else {
      var before := steps[..|steps| - 1];
      var w1 := Run(cfg, w, before);
      var w2 := Next(cfg, w1, steps[|steps| - 1]);
      RunSimulates(cfg, w, before);
      StepSimulates(cfg, w1, steps[|steps| - 1]);
      var middle := w1.history.events;
      assert events + middle[|events|..] == middle;
      assert middle[|events|..] + w2.history.events[|middle|..] == w2.history.events[|events|..];
      P.Chain(cfg, Abs(w), w.log, middle[|events|..], Abs(w1), w1.log, w2.history.events[|middle|..], Abs(w2), w2.log);
    }
  }

  /** Phase refinement: every interleaving of server steps is a run of the five-phase protocol. */
  lemma ServerFollowsProtocol(cfg: Config, revision: u64, steps: seq<Step>)
    requires cfg.Valid() && revision >= 1
    ensures var w := WorldAfter(cfg, revision, steps);
            && Sound(cfg, w)
            && P.Leads(cfg, P.Initial(revision), [], w.history.events, Abs(w), w.log)
  {
    hide Sound, P.Leads, Abs, Run;
    BootIsSound(cfg, revision);
    RunSimulates(cfg, Boot(revision), steps);
    var events := WorldAfter(cfg, revision, steps).history.events;
    assert events[0..] == events;
  }

  // Phases.

  /** The phase stays or takes an edge; a room returns to waiting only by a cancelled countdown or when it empties. */
  predicate Moves(s: Room, s': Room)
  {
    && P.Edge(Phase(s), Phase(s'))
    && (Phase(s) != Waiting && Phase(s') == Waiting ==> Phase(s).Countdown? || s'.players == map[])
  }

  lemma RemoveEdge(cfg: Config, s: Room, p: u8, reason: LeaveReason)
    requires cfg.Valid() && Valid(cfg, s) && p in s.players
    ensures Moves(s, Remove(s, p, reason).room)
  {
    hide Seated, Queued, Untouched, Served, AllReady, AllLoaded, DepartureUpdates;
  }

  lemma LeaveEdge(cfg: Config, s: Room, p: u8, session: u64, reason: LeaveReason)
    requires cfg.Valid() && Valid(cfg, s)
    ensures Moves(s, Leave(cfg, s, p, session, reason).room)
  {
    hide Valid, Remove, Leave;
    if HasSession(s.players, p, session) {
      LeaveParts(cfg, s, p, session, reason);
      FlushedKeepsPhase(cfg, s);
      RemoveEdge(cfg, Flushed(cfg, s).room, p, reason);
    } else {
      LeaveByStranger(cfg, s, p, session, reason);
    }
  }

  lemma FlushedKeepsPhase(cfg: Config, s: Room)
    requires cfg.Valid() && Valid(cfg, s)
    ensures Phase(Flushed(cfg, s).room) == Phase(s) && Valid(cfg, Flushed(cfg, s).room)
    ensures Flushed(cfg, s).room.players == s.players
  {
    hide Valid, TickFrames, Numbered;
    if s.gameplayActive {
      PublishKeepsValid(cfg, s, 0);
    }
  }

  lemma LoadedEdge(cfg: Config, s: Room, p: u8, session: u64)
    requires cfg.Valid() && Valid(cfg, s)
    ensures Moves(s, MarkLoaded(s, p, session).room)
  {
    hide Seated, Queued, Untouched, Served, AllReady, AllLoaded;
  }

  lemma ReadinessEdge(cfg: Config, s: Room, step: Step)
    requires cfg.Valid() && Valid(cfg, s) && (step.ReadyStep? || step.ManualStartStep?)
    ensures Moves(s, CallEffect(cfg, s, step).room)
  {
    hide Seated, Queued, Untouched, Served, AllReady, AllLoaded, CanStartOnRequest, CanStartAutomatically;
    if step.ReadyStep? && HasSession(s.players, step.player, step.session) && !s.players[step.player].ready {
      OneUnready(s.players, step.player);
    }
  }

  lemma CallEdge(cfg: Config, s: Room, step: Step)
    requires cfg.Valid() && Valid(cfg, s) && !step.FlushStep? && !step.WakeStep?
    ensures Moves(s, CallEffect(cfg, s, step).room)
  {
    hide Valid, Phase;
    hide MarkReady, RequestManualStart, MarkLoaded, Leave, SubmitAction, SubmitKeepAlive, PublishChat, Join;
    match step
    case JoinStep(name) => JoinKeepsPhase(cfg, s, name);
    case ReadyStep(_, _) => ReadinessEdge(cfg, s, step);
    case ManualStartStep(_, _) => ReadinessEdge(cfg, s, step);
    case LoadedStep(p, session) => LoadedEdge(cfg, s, p, session);
    case LeaveStep(p, session, reason) => LeaveEdge(cfg, s, p, session, reason);
    case ActionStep(p, session, sequence, action) => ActionQuiet(s, p, session, sequence, action);
    case KeepAliveStep(p, session, sequence, checksum) => KeepAliveQuiet(s, p, session, sequence, checksum);
    case ChatStep(p, session, message, now) => ChatQuiet(s, p, session, message, now);
  }

  lemma JoinKeepsPhase(cfg: Config, s: Room, name: string)
    ensures Phase(Join(cfg, s, name).room) == Phase(s)
  {
    hide LeastFree;
  }

  lemma WakeEdge(cfg: Config, s: Room, t: Task)
    requires cfg.Valid() && Valid(cfg, s) && Timely(s, t) && !t.done
    ensures Moves(s, WakeJob(cfg, s, t.job).room)
  {
    hide Seated, Queued, Untouched, Served, AllReady, AllLoaded, TickFrames, Numbered, SlotEvents;
  }

  /** Every step of the server moves the room along the phase diagram. */
  lemma StepFollowsEdges(cfg: Config, w: World, step: Step)
    requires cfg.Valid() && Sound(cfg, w)
    ensures Moves(w.room, Next(cfg, w, step).room)
  {
    hide Valid, Honest, Issued, Moves, CallEffect, WakeJob, Remember, CallEvents;
    StaysPut(w.room);
    if Enabled(w, step) && step.WakeStep? {
      WakeEdge(cfg, w.room, w.tasks[step.task]);
    } else if Enabled(w, step) && !step.FlushStep? {
      CallEdge(cfg, w.room, step);
    }
  }

  lemma StaysPut(s: Room)
    ensures Moves(s, s)
  {
  }
}
