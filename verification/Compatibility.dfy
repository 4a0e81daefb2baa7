/**
 Protocol compatibility: an agent that takes in every update from its own join onward never rejects one,
 and the Warcraft it feeds stays in step, however server steps interleave.
 */
module Compatibility {
  import opened Bytes
  import opened Text
  import opened Frames
  import opened Actions
  import opened GameTunnel
  import opened Rosters
  import opened RoomModel
  import opened Slots
  import opened AgentModel
  import opened WarcraftView
  import opened P = Protocol
  import Server
  import Refinement

  /** The policy agents are built for: ten seats, sixty seconds in steps of ten. */
  predicate DefaultPolicy(cfg: Config)
  {
    && cfg.Valid() && cfg.maximum == DOTA_HUMAN_SLOTS
    && cfg.initialSeconds == LOBBY_COUNTDOWN_SECONDS && cfg.stepSeconds == LOBBY_COUNTDOWN_STEP_SECONDS
  }

  /** The revision at which a member took its seat. */
  function SeatedAt(m: Member): (revision: u64)
  {
    m.ticket.roster.revision
  }

  /** The present members who were seated by `revision`. */
  function NamesUpTo(members: Members, revision: u64): (names: map<u8, string>)
  {
    map p | p in members && SeatedAt(members[p]) <= revision :: members[p].name
  }

  predicate GoodTicket(cfg: Config, st: State, p: u8)
    requires p in st.members
  {
    var ticket := st.members[p].ticket;
    && 1 <= p
    && ValidRoster(ticket.roster, cfg.maximum)
    && ticket.roster.revision <= st.revision && ticket.since <= st.emitted
    && Player(ticket.roster, p) == Some(LobbyPlayer(p, p - 1, st.members[p].name))
  }

  predicate GoodTickets(cfg: Config, st: State)
  {
    forall p | p in st.members :: GoodTicket(cfg, st, p)
  }

  predicate WholeCountdown(st: State)
  {
    st.phase.Countdown? ==> ValidCountdown(st.phase.remaining)
  }

  /** A protocol state in which agents can be accompanied. */
  predicate Orderly(cfg: Config, st: State)
  {
    WellFormed(cfg, st) && GoodTickets(cfg, st) && WholeCountdown(st)
  }

  // What an agent knows of the protocol state.

  /** The agent's roster lists the present members seated by its revision; later newcomers are still to be announced. */
  predicate Knows(st: State, p: u8, roster: Roster)
    requires p in st.members
  {
    && roster == RosterOf(roster.revision, NamesUpTo(st.members, roster.revision))
    && SeatedAt(st.members[p]) <= roster.revision <= st.revision
    && (forall q | q in st.members && st.members[q].announced :: SeatedAt(st.members[q]) <= roster.revision)
    && (forall q | q in st.members && SeatedAt(st.members[q]) > roster.revision ::
          var at := SeatedAt(st.members[q]); st.members[q].ticket.roster == RosterOf(at, NamesUpTo(st.members, at)))
  }

  predicate InGame(phase: LobbyPhase)
  {
    phase == Loading || phase == Playing
  }

  /** The agent of member `p` has followed the game as far as the protocol has. */
  predicate Follows(st: State, p: u8, a: Agent)
    requires p in st.members
  {
    && a.id == p && !a.finished
    && (a.started <==> InGame(st.phase))
    && (forall q: u8 :: q in a.loaded <==> q in st.members && st.members[q].loaded)
    && a.received == st.frames
    && Knows(st, p, a.roster)
  }

  /** Its Warcraft shows exactly the host and the other players of its roster. */
  predicate Shows(lobby: Lobby, p: u8, client: Client)
  {
    && client.warcraft.self == p
    && Sees(client.warcraft, lobby, client.agent.roster)
    && (!client.agent.started ==> client.warcraft.slots == SlotsFor(lobby, client.agent.roster, 11))
  }

  /** A finished session has heard of everybody still present whether they had loaded. */
  predicate Closed(st: State, p: u8, a: Agent)
  {
    a.id == p && a.finished && forall q | q in st.members :: q in a.loaded <==> st.members[q].loaded
  }

  predicate Agrees(lobby: Lobby, st: State, p: u8, client: Client)
    requires p in st.members
  {
    if st.phase == Ended then Closed(st, p, client.agent)
    else Follows(st, p, client.agent) && Shows(lobby, p, client)
  }

  // Facts about the roster an agent holds.

  lemma KnownRoster(cfg: Config, st: State, p: u8, roster: Roster)
    requires DefaultPolicy(cfg) && Orderly(cfg, st) && p in st.members && Knows(st, p, roster)
    ensures ValidRoster(roster, DOTA_HUMAN_SLOTS)
    ensures forall q: u8 :: Player(roster, q) ==
              if q in st.members && SeatedAt(st.members[q]) <= roster.revision
              then Some(LobbyPlayer(q, q - 1, st.members[q].name)) else None
  {
    hide Listing, GoodTicket, PhaseOrder, Find;
    var names := NamesUpTo(st.members, roster.revision);
    forall q | q in names ensures 1 <= q <= DOTA_HUMAN_SLOTS && ValidPlayerName(names[q]) {
      assert GoodMember(cfg, st, q);
    }
    TicketRevision(cfg, st, p);
    ListedRosterIsValid(roster.revision, names, DOTA_HUMAN_SLOTS);
    forall q: u8 ensures Player(roster, q) == Rosters.Entry(names, q) {
      PlayerOfRoster(roster.revision, names, q);
    }
  }

  lemma TicketRevision(cfg: Config, st: State, p: u8)
    requires p in st.members && GoodTicket(cfg, st, p)
    ensures st.members[p].ticket.roster.revision >= 1
  {
  }

  lemma EverybodyIsAddressed(players: seq<LobbyPlayer>)
    requires ValidEntries(players, |players|, DOTA_HUMAN_SLOTS) && 1 <= |players| <= DOTA_HUMAN_SLOTS
    ensures ValidRecipients(Ids(players))
  {
    hide ValidPlayerName, DistinctSlots;
    assert forall i | 0 <= i < |players| :: ValidEntry(players[i], DOTA_HUMAN_SLOTS);
  }

  lemma SomebodyIsThere(players: seq<LobbyPlayer>, id: u8)
    requires Find(players, id).Some?
    ensures |players| >= 1
  {
  }

  lemma SpeakSucceeds(a: Agent, from: u8, text: ChatText)
    requires ValidRoster(a.roster, DOTA_HUMAN_SLOTS) && Player(a.roster, a.id).Some? && from != 0
    requires text.Spoken? ==> ValidChatMessage(text.message)
    ensures Speak(a, from, text) == Ok(Reaction(a, [ChatFromHost(from, Ids(a.roster.players), text)]))
  {
    hide ValidEntries, ValidRecipients, Find;
    SomebodyIsThere(a.roster.players, a.id);
    EverybodyIsAddressed(a.roster.players);
  }

  // One event at a time.

  lemma AbsorbNone(lobby: Lobby, crc: Crc, client: Client)
    ensures AbsorbAll(lobby, crc, client, []) == Some(client)
  {
  }

  lemma AbsorbOne(lobby: Lobby, crc: Crc, client: Client, u: Update)
    ensures AbsorbAll(lobby, crc, client, [u]) == AgentModel.Absorb(lobby, crc, client, u)
  {
    hide AgentModel.Absorb;
    assert [u][1..] == [];
  }

  /** The member table and revision once a newcomer has entered. */
  predicate Entering(cfg: Config, st: State, st': State, id: u8, name: string)
  {
    && id !in st.members && 1 <= id <= cfg.maximum && ValidPlayerName(name)
    && st.revision < U64_MAX && st'.revision == st.revision + 1
    && var ticket := Ticket(RosterOf(st'.revision, NamesOf(st.members)[id := name]), st.emitted);
       st'.members == st.members[id := Member(st.nextSession, name, false, false, ticket)]
  }

  lemma EnterEnters(cfg: Config, st: State, name: string)
    requires Allowed(cfg, st, Enter(name)) && Apply(cfg, st, Enter(name)).revision < U64_MAX
    ensures LeastFree(st.members.Keys, 1, cfg.maximum).Some?
    ensures var id := LeastFree(st.members.Keys, 1, cfg.maximum).value;
            Entering(cfg, st, Apply(cfg, st, Enter(name)), id, name)
    ensures Sent(cfg, st, Enter(name)) == []
  {
    hide ValidPlayerName;
    LeastFreeInRange(st.members.Keys, 1, cfg.maximum);
  }

  /** Revisions up to the present one are blind to the newcomer. */
  lemma NewcomerUnseen(cfg: Config, st: State, st': State, id: u8, name: string, revision: u64)
    requires Entering(cfg, st, st', id, name) && revision <= st.revision
    ensures NamesUpTo(st'.members, revision) == NamesUpTo(st.members, revision)
  {
    hide ValidPlayerName, Listing;
  }

  lemma NewcomerSeen(cfg: Config, st: State, st': State, id: u8, name: string)
    requires Entering(cfg, st, st', id, name) && GoodTickets(cfg, st)
    ensures NamesUpTo(st'.members, st'.revision) == NamesOf(st.members)[id := name]
  {
    hide ValidPlayerName, Listing, ValidRoster, Find;
    forall q | q in st.members ensures SeatedAt(st.members[q]) <= st.revision {
      assert GoodTicket(cfg, st, q);
    }
  }

  lemma EnterKnows(cfg: Config, st: State, st': State, id: u8, name: string, p: u8, roster: Roster)
    requires Entering(cfg, st, st', id, name) && GoodTickets(cfg, st) && p in st.members && Knows(st, p, roster)
    ensures Knows(st', p, roster)
  {
    hide ValidPlayerName, Listing, NamesUpTo, NamesOf;
    NewcomerUnseen(cfg, st, st', id, name, roster.revision);
    NewcomerSeen(cfg, st, st', id, name);
    forall q | q in st'.members && SeatedAt(st'.members[q]) > roster.revision
      ensures st'.members[q].ticket.roster
          == RosterOf(SeatedAt(st'.members[q]), NamesUpTo(st'.members, SeatedAt(st'.members[q])))
    {
      if q != id {
        assert GoodTicket(cfg, st, q);
        NewcomerUnseen(cfg, st, st', id, name, SeatedAt(st.members[q]));
      }
    }
  }

  /** A newcomer's own roster, as it was welcomed with it. */
  lemma NewcomerKnows(cfg: Config, st: State, st': State, id: u8, name: string)
    requires Entering(cfg, st, st', id, name) && GoodTickets(cfg, st)
    ensures Knows(st', id, st'.members[id].ticket.roster)
  {
    hide ValidPlayerName, Listing, NamesUpTo, NamesOf;
    NewcomerSeen(cfg, st, st', id, name);
    forall q | q in st'.members ensures SeatedAt(st'.members[q]) <= st'.revision {
      assert q in st.members ==> GoodTicket(cfg, st, q);
    }
  }

  lemma EnterTickets(cfg: Config, st: State, st': State, id: u8, name: string)
    requires DefaultPolicy(cfg) && Entering(cfg, st, st', id, name) && GoodTickets(cfg, st) && st'.emitted == st.emitted
    requires forall q | q in st.members :: GoodMember(cfg, st, q)
    ensures GoodTickets(cfg, st')
  {
    hide ValidPlayerName, Listing, Find, ValidRoster;
    var names := NamesOf(st.members)[id := name];
    forall q | q in names ensures 1 <= q <= cfg.maximum && ValidPlayerName(names[q]) {
      assert q in st.members ==> GoodMember(cfg, st, q);
    }
    ListedRosterIsValid(st'.revision, names, cfg.maximum);
    PlayerOfRoster(st'.revision, names, id);
    forall q | q in st'.members ensures GoodTicket(cfg, st', q) {
      assert q in st.members ==> GoodTicket(cfg, st, q);
    }
  }

  /** Entries and names are as before; only announcements and loading may differ. */
  predicate SameEntries(st: State, st': State)
  {
    && st'.members.Keys == st.members.Keys && st'.revision == st.revision
    && forall q | q in st.members ::
         st'.members[q].name == st.members[q].name && st'.members[q].ticket == st.members[q].ticket
  }

  lemma SameNames(st: State, st': State, revision: u64)
    requires SameEntries(st, st')
    ensures NamesUpTo(st'.members, revision) == NamesUpTo(st.members, revision)
  {
  }

  lemma SameKnows(st: State, st': State, p: u8, roster: Roster)
    requires SameEntries(st, st') && p in st.members && Knows(st, p, roster)
    requires forall q | q in st'.members && st'.members[q].announced && !st.members[q].announced ::
               SeatedAt(st.members[q]) <= roster.revision
    ensures Knows(st', p, roster)
  {
    hide NamesUpTo, Listing;
    SameNames(st, st', roster.revision);
    forall q | q in st'.members && SeatedAt(st'.members[q]) > roster.revision
      ensures st'.members[q].ticket.roster
          == RosterOf(SeatedAt(st'.members[q]), NamesUpTo(st'.members, SeatedAt(st'.members[q])))
    {
      SameNames(st, st', SeatedAt(st.members[q]));
    }
  }

  /** A late roster broadcast is either already known or the next thing to know. */
  lemma AnnounceKnows(st: State, st': State, q: u8, p: u8, roster: Roster)
    requires p in st.members && q in st.members && Knows(st, p, roster)
    requires st' == st.(members := st.members[q := st.members[q].(announced := true)], emitted := st'.emitted)
    requires SeatedAt(st.members[q]) <= st.revision && p >= 1
    ensures SameEntries(st, st')
    ensures SeatedAt(st.members[q]) <= roster.revision ==> Knows(st', p, roster)
    ensures SeatedAt(st.members[q]) > roster.revision ==> Knows(st', p, st.members[q].ticket.roster)
    ensures SeatedAt(st.members[q]) > roster.revision ==> Player(st.members[q].ticket.roster, p).Some?
  {
    hide NamesUpTo, Listing, Find;
    if SeatedAt(st.members[q]) <= roster.revision {
      SameKnows(st, st', p, roster);
    } else {
      var next := st.members[q].ticket.roster;
      assert Knows(st, p, next);
      SameKnows(st, st', p, next);
      SeatedByThen(st.members, p, next.revision);
      PlayerOfRoster(next.revision, NamesUpTo(st.members, next.revision), p);
    }
  }

  lemma SeatedByThen(members: Members, p: u8, revision: u64)
    requires p in members && SeatedAt(members[p]) <= revision
    ensures p in NamesUpTo(members, revision)
  {
  }

  /** The roster a member was welcomed with is acceptable to anyone. */
  lemma TicketIsValid(cfg: Config, st: State, q: u8)
    requires DefaultPolicy(cfg) && GoodTickets(cfg, st) && q in st.members
    ensures ValidRoster(st.members[q].ticket.roster, DOTA_HUMAN_SLOTS)
    ensures 1 <= q && SeatedAt(st.members[q]) <= st.revision
    ensures Player(st.members[q].ticket.roster, q).Some?
  {
    hide ValidRoster;
    assert GoodTicket(cfg, st, q);
  }

  lemma AnnounceTaken(lobby: Lobby, cfg: Config, st: State, q: u8, p: u8, client: Client)
    requires DotaLobby(lobby) && DefaultPolicy(cfg) && Orderly(cfg, st) && Allowed(cfg, st, Announce(q))
    requires p in st.members && Agrees(lobby, st, p, client)
    ensures var e := Announce(q);
            var r := AbsorbAll(lobby, cfg.crc, client, Sent(cfg, st, e));
            p in Apply(cfg, st, e).members && r.Some? && Agrees(lobby, Apply(cfg, st, e), p, r.value)
  {
    hide Knows, Sees, GoodTicket, WellFormed, ValidRoster, RosterWires;
    hide SlotsFor, AbsorbAll, ShowAll, LeastFree, Find, Listing;
    var st' := Apply(cfg, st, Announce(q));
    var next := st.members[q].ticket.roster;
    TicketIsValid(cfg, st, q);
    TicketIsValid(cfg, st, p);
    KnownRoster(cfg, st, p, client.agent.roster);
    AnnounceKnows(st, st', q, p, client.agent.roster);
    AbsorbOne(lobby, cfg.crc, client, RosterUpdate(next));
    RosterShown(lobby, client.warcraft, client.agent.roster, next);
    NothingShown(client.warcraft);
  }

  lemma AnnouncedIsKnown(st: State, p: u8, roster: Roster, q: u8)
    requires p in st.members && Knows(st, p, roster) && q in st.members
    requires st.members[q].announced || q == p
    ensures SeatedAt(st.members[q]) <= roster.revision
  {
  }

  /** A step that moves nobody and says one thing to Warcraft. */
  lemma SpeechTaken(lobby: Lobby, cfg: Config, st: State, st': State, u: Update, from: u8, text: ChatText,
                    p: u8, client: Client)
    requires DefaultPolicy(cfg) && Orderly(cfg, st)
    requires p in st.members && Follows(st, p, client.agent) && Shows(lobby, p, client)
    requires SameEntries(st, st') && st'.members == st.members && st'.frames == st.frames
    requires st'.phase != Ended && (InGame(st'.phase) <==> InGame(st.phase))
    requires On(lobby, cfg.crc, client.agent, u) == Speak(client.agent, from, text)
    requires from != 0 && (text.Spoken? ==> ValidChatMessage(text.message))
    requires from == lobby.host.playerId || Player(client.agent.roster, from).Some?
    ensures AbsorbAll(lobby, cfg.crc, client, [u]) == Some(client) && Agrees(lobby, st', p, client)
  {
    hide Knows, Sees, Orderly, ValidRoster, SlotsFor, AbsorbAll, ShowAll, Find, Speak, On, NamesUpTo, SameEntries;
    var a := client.agent;
    KnownRoster(cfg, st, p, a.roster);
    AnnouncedIsKnown(st, p, a.roster, p);
    SameKnows(st, st', p, a.roster);
    AbsorbOne(lobby, cfg.crc, client, u);
    SpeakSucceeds(a, from, text);
    RosterIdsDiffer(a.roster);
    ChatShown(lobby, client.warcraft, a.roster, from, text);
  }

  lemma RosterIdsDiffer(roster: Roster)
    requires ValidRoster(roster, DOTA_HUMAN_SLOTS)
    ensures DistinctIds(roster.players, |roster.players|)
  {
    hide ValidPlayerName, DistinctSlots;
  }

  lemma SayTaken(lobby: Lobby, cfg: Config, st: State, q: u8, message: string, p: u8, client: Client)
    requires DotaLobby(lobby) && DefaultPolicy(cfg) && Orderly(cfg, st) && Allowed(cfg, st, Say(q, message))
    requires p in st.members && Agrees(lobby, st, p, client)
    ensures var e := Say(q, message);
            AbsorbAll(lobby, cfg.crc, client, Sent(cfg, st, e)) == Some(client)
            && p in Apply(cfg, st, e).members && Agrees(lobby, Apply(cfg, st, e), p, client)
  {
    hide Knows, Shows, GoodTickets, ValidRoster, AbsorbAll, Find, Listing, Speak, GoodMember, PhaseOrder;
    var st' := Apply(cfg, st, Say(q, message));
    if client.agent.finished {
      FinishedTaken(lobby, cfg.crc, client, [Chat(q, message)]);
    } else {
      KnownRoster(cfg, st, p, client.agent.roster);
      AnnouncedIsKnown(st, p, client.agent.roster, q);
      GoodMemberRange(cfg, st, q);
      SpeechTaken(lobby, cfg, st, st', Chat(q, message), q, Spoken(message), p, client);
    }
  }

  lemma CountdownTaken(lobby: Lobby, cfg: Config, st: State, e: Event, p: u8, client: Client)
    requires DotaLobby(lobby) && DefaultPolicy(cfg) && Orderly(cfg, st) && Allowed(cfg, st, e)
    requires e.BeginCountdown? || e.Tick?
    requires p in st.members && Agrees(lobby, st, p, client)
    ensures AbsorbAll(lobby, cfg.crc, client, Sent(cfg, st, e)) == Some(client)
    ensures p in Apply(cfg, st, e).members && Agrees(lobby, Apply(cfg, st, e), p, client)
  {
    hide Knows, Shows, GoodTickets, WellFormed, ValidRoster, AbsorbAll, Speak;
    var st' := Apply(cfg, st, e);
    var u := Sent(cfg, st, e)[0];
    SpeechTaken(lobby, cfg, st, st', u, lobby.host.playerId, SecondsLeft(u.remaining), p, client);
  }

  lemma GoodMemberRange(cfg: Config, st: State, q: u8)
    requires WellFormed(cfg, st) && q in st.members
    ensures 1 <= q <= cfg.maximum
  {
    assert GoodMember(cfg, st, q);
  }

  lemma {:induction false} FinishedTaken(lobby: Lobby, crc: Crc, client: Client, updates: seq<Update>)
    requires client.agent.finished
    ensures AbsorbAll(lobby, crc, client, updates) == Some(client)
    decreases |updates|
  {
    hide On;
    if updates != [] {
      FinishedTaken(lobby, crc, client, updates[1..]);
    }
  }

  lemma BeginTaken(lobby: Lobby, cfg: Config, st: State, p: u8, client: Client)
    requires DotaLobby(lobby) && DefaultPolicy(cfg) && Orderly(cfg, st) && Allowed(cfg, st, Begin)
    requires p in st.members && Agrees(lobby, st, p, client)
    ensures var r := AbsorbAll(lobby, cfg.crc, client, Sent(cfg, st, Begin));
            p in Apply(cfg, st, Begin).members && r.Some? && Agrees(lobby, Apply(cfg, st, Begin), p, r.value)
  {
    hide Knows, Sees, GoodTicket, ValidRoster, SlotsFor, AbsorbAll, ShowAll, WellFormed, Find, Listing;
    SameKnows(st, Apply(cfg, st, Begin), p, client.agent.roster);
    AbsorbOne(lobby, cfg.crc, client, Start);
    StartShown(lobby, client.warcraft, client.agent.roster);
  }

  lemma LoadTaken(lobby: Lobby, cfg: Config, st: State, q: u8, p: u8, client: Client)
    requires DotaLobby(lobby) && DefaultPolicy(cfg) && Orderly(cfg, st) && Allowed(cfg, st, Load(q))
    requires p in st.members && Agrees(lobby, st, p, client)
    ensures var r := AbsorbAll(lobby, cfg.crc, client, Sent(cfg, st, Load(q)));
            p in Apply(cfg, st, Load(q)).members && r.Some? && Agrees(lobby, Apply(cfg, st, Load(q)), p, r.value)
  {
    hide Knows, Sees, GoodTickets, ValidRoster, SlotsFor, AbsorbAll;
    hide ShowAll, Find, Listing, GoodMember, NamesUpTo, WholeCountdown;
    LoadedIsKnown(cfg, st, p, client.agent.roster, q);
    GoodMemberRange(cfg, st, q);
    SameKnows(st, Apply(cfg, st, Load(q)), p, client.agent.roster);
    AbsorbOne(lobby, cfg.crc, client, PlayerLoaded(q));
    RosterIsRecognized(lobby, client.warcraft, client.agent.roster, q);
    QuietShown(client.warcraft, LoadedOthers(q));
  }

  /** During a game everybody present is on the agent's roster. */
  lemma LoadedIsKnown(cfg: Config, st: State, p: u8, roster: Roster, q: u8)
    requires DefaultPolicy(cfg) && Orderly(cfg, st) && p in st.members && Knows(st, p, roster)
    requires q in st.members && st.phase != Waiting
    ensures Player(roster, q).Some?
  {
    hide Knows, GoodTickets, GoodMember, ValidRoster, Find, NamesUpTo;
    KnownRoster(cfg, st, p, roster);
    AnnouncedIsKnown(st, p, roster, q);
  }

  lemma PlayTaken(lobby: Lobby, cfg: Config, st: State, p: u8, client: Client)
    requires Orderly(cfg, st) && Allowed(cfg, st, Play) && p in st.members && Agrees(lobby, st, p, client)
    ensures AbsorbAll(lobby, cfg.crc, client, Sent(cfg, st, Play)) == Some(client)
    ensures p in Apply(cfg, st, Play).members && Agrees(lobby, Apply(cfg, st, Play), p, client)
  {
    hide Knows, Sees, GoodTicket, ValidRoster, SlotsFor, Find, Listing, GoodMember;
    SameKnows(st, Apply(cfg, st, Play), p, client.agent.roster);
  }

  lemma SlotTaken(lobby: Lobby, cfg: Config, st: State, frame: seq<u8>, p: u8, client: Client)
    requires DefaultPolicy(cfg) && Orderly(cfg, st) && Allowed(cfg, st, Slot(frame))
    requires p in st.members && Agrees(lobby, st, p, client)
    ensures var r := AbsorbAll(lobby, cfg.crc, client, Sent(cfg, st, Slot(frame)));
            && p in Apply(cfg, st, Slot(frame)).members
            && r.Some? && Agrees(lobby, Apply(cfg, st, Slot(frame)), p, r.value)
  {
    hide Knows, Sees, GoodTicket, ValidRoster, SlotsFor, AbsorbAll;
    hide ShowAll, Find, Listing, WellFormed, Deliver, DecodeTimeslot;
    SameKnows(st, Apply(cfg, st, Slot(frame)), p, client.agent.roster);
    SlotDelivered(cfg, frame, st.frames + 1, st.members.Keys);
    AbsorbOne(lobby, cfg.crc, client, GameFrame(st.frames + 1, frame));
    SlotShown(lobby, cfg, st, frame, p, client);
  }

  /** Every action of a proper timeslot comes from somebody Warcraft recognizes. */
  lemma SlotShown(lobby: Lobby, cfg: Config, st: State, frame: seq<u8>, p: u8, client: Client)
    requires DefaultPolicy(cfg) && Orderly(cfg, st) && ProperSlot(cfg, frame, st.members.Keys) && st.phase != Waiting
    requires p in st.members && Knows(st, p, client.agent.roster) && Shows(lobby, p, client)
    ensures var f := DecodeExact(frame, MAX_TUNNELED_FRAME_BYTES).value;
            ShowAll(client.warcraft, [Timeslots(f, DecodeTimeslot(cfg.crc, f).value)]) == Some(client.warcraft)
  {
    hide Knows, Sees, Recognizes, Orderly, SlotsFor, ShowAll, Find, DecodeTimeslot, DecodeExact;
    var f := DecodeExact(frame, MAX_TUNNELED_FRAME_BYTES).value;
    var slot := DecodeTimeslot(cfg.crc, f).value;
    forall i | 0 <= i < |slot.actions| ensures Recognizes(client.warcraft, slot.actions[i].player) {
      LoadedIsKnown(cfg, st, p, client.agent.roster, slot.actions[i].player);
      RosterIsRecognized(lobby, client.warcraft, client.agent.roster, slot.actions[i].player);
    }
    QuietShown(client.warcraft, Timeslots(f, slot));
  }

  /** A proper timeslot survives the tunnel and decodes on the other side. */
  lemma SlotDelivered(cfg: Config, frame: seq<u8>, sequence: u64, present: set<u8>)
    requires ProperSlot(cfg, frame, present) && sequence > 0
    ensures var f := DecodeExact(frame, MAX_TUNNELED_FRAME_BYTES);
            && f.Ok? && Deliver(FromServer, sequence, frame) == Ok((sequence, f.value))
            && DecodeTimeslot(cfg.crc, f.value).Ok?
  {
    hide DecodeTimeslot, DecodeExact;
    var f := DecodeExact(frame, MAX_TUNNELED_FRAME_BYTES).value;
    FrameCanonical(frame, MAX_TUNNELED_FRAME_BYTES);
    DeliveryIsFaithful(FromServer, sequence, f);
  }

  lemma EndTaken(lobby: Lobby, cfg: Config, st: State, cause: EndReason, p: u8, client: Client)
    requires DotaLobby(lobby) && Allowed(cfg, st, End(cause)) && p in st.members && Agrees(lobby, st, p, client)
    ensures var r := AbsorbAll(lobby, cfg.crc, client, Sent(cfg, st, End(cause)));
            p in Apply(cfg, st, End(cause)).members && r.Some? && Agrees(lobby, Apply(cfg, st, End(cause)), p, r.value)
  {
    hide Knows, Sees, SlotsFor, AbsorbAll, ShowAll;
    AbsorbOne(lobby, cfg.crc, client, GameEnded(cause));
    RosterIsRecognized(lobby, client.warcraft, client.agent.roster, lobby.host.playerId);
    QuietShown(client.warcraft, GameOver(lobby.host.playerId));
  }

  // Departures.

  /** The member table and revision once `x` has left while others remain. */
  predicate Leaving(st: State, st': State, x: u8, next: Roster)
  {
    && x in st.members && st'.members == st.members - {x}
    && st.revision < U64_MAX && st'.revision == st.revision + 1
    && next == RosterOf(st'.revision, NamesOf(st'.members))
  }

  lemma LeaveNames(cfg: Config, st: State, st': State, x: u8, next: Roster)
    requires Leaving(st, st', x, next) && GoodTickets(cfg, st)
    ensures NamesUpTo(st'.members, st'.revision) == NamesOf(st'.members)
    ensures forall q | q in st'.members :: SeatedAt(st'.members[q]) <= st.revision
  {
    hide Listing, ValidRoster, Find;
    forall q | q in st'.members ensures SeatedAt(st'.members[q]) <= st.revision {
      assert GoodTicket(cfg, st, q);
    }
  }

  lemma LeaveKnows(cfg: Config, st: State, st': State, x: u8, next: Roster, p: u8)
    requires Leaving(st, st', x, next) && GoodTickets(cfg, st) && p in st'.members
    ensures Knows(st', p, next)
  {
    hide Listing, NamesUpTo, NamesOf;
    LeaveNames(cfg, st, st', x, next);
  }

  lemma LeaveTickets(cfg: Config, st: State, st': State, x: u8, next: Roster)
    requires Leaving(st, st', x, next) && GoodTickets(cfg, st) && st'.emitted >= st.emitted
    ensures GoodTickets(cfg, st')
  {
    hide Listing, ValidRoster, Find;
    forall q | q in st'.members ensures GoodTicket(cfg, st', q) {
      assert GoodTicket(cfg, st, q);
    }
  }

  lemma LeaveRoster(cfg: Config, st: State, st': State, x: u8, next: Roster, p: u8)
    requires DefaultPolicy(cfg) && Leaving(st, st', x, next) && p in st'.members
    requires forall q | q in st.members :: GoodMember(cfg, st, q)
    ensures ValidRoster(next, DOTA_HUMAN_SLOTS)
    ensures forall q | q in st'.members :: q >= 1
    ensures forall q: u8 :: Player(next, q) ==
              if q in st'.members then Some(LobbyPlayer(q, q - 1, st'.members[q].name)) else None
  {
    hide Listing, Find, ValidRoster;
    var names := NamesOf(st'.members);
    forall q | q in names ensures 1 <= q <= DOTA_HUMAN_SLOTS && ValidPlayerName(names[q]) {
      assert GoodMember(cfg, st, q);
    }
    ListedRosterIsValid(next.revision, names, DOTA_HUMAN_SLOTS);
    forall q: u8 ensures Player(next, q) == Rosters.Entry(names, q) {
      PlayerOfRoster(next.revision, names, q);
    }
    forall q | q in st'.members ensures q >= 1 {
      assert GoodMember(cfg, st, q);
    }
  }

  lemma DepartLeaves(cfg: Config, st: State, x: u8, reason: LeaveReason)
    requires Allowed(cfg, st, Depart(x, reason)) && Apply(cfg, st, Depart(x, reason)).revision < U64_MAX
    ensures var st' := Apply(cfg, st, Depart(x, reason));
            var next := RosterOf(st'.revision, NamesOf(st'.members));
            && Leaving(st, st', x, next)
            && Sent(cfg, st, Depart(x, reason)) ==
                 (match st.phase
                  case Waiting => [RosterUpdate(next)]
                  case Countdown(_) => [RosterUpdate(next), CountdownCancelled]
                  case _ => [PlayerLeft(x, reason, next)])
  {
    hide Listing;
  }

  /** A departure from the lobby reaches a remaining agent as a newer roster. */
  lemma LobbyDepartureTaken(lobby: Lobby, cfg: Config, st: State, st': State, x: u8, next: Roster, p: u8,
                            client: Client)
    requires DotaLobby(lobby) && DefaultPolicy(cfg) && Orderly(cfg, st) && Leaving(st, st', x, next) && p in st'.members
    requires st.phase == Waiting || st.phase.Countdown?
    requires st'.phase == Waiting && st'.frames == 0
    requires Agrees(lobby, st, p, client)
    ensures var r := AbsorbAll(lobby, cfg.crc, client, [RosterUpdate(next)]); r.Some? && Agrees(lobby, st', p, r.value)
  {
    hide Knows, Sees, GoodTickets, ValidRoster, SlotsFor, AbsorbAll;
    hide ShowAll, Find, Listing, RosterWires, GoodMember, NamesOf;
    KnownRoster(cfg, st, p, client.agent.roster);
    LeaveKnows(cfg, st, st', x, next, p);
    LeaveRoster(cfg, st, st', x, next, p);
    KnownRevision(st, p, client.agent.roster);
    AbsorbOne(lobby, cfg.crc, client, RosterUpdate(next));
    RosterShown(lobby, client.warcraft, client.agent.roster, next);
  }

  lemma KnownRevision(st: State, p: u8, roster: Roster)
    requires p in st.members && Knows(st, p, roster)
    ensures roster.revision <= st.revision
  {
  }

  lemma CancelTaken(lobby: Lobby, cfg: Config, st: State, p: u8, client: Client)
    requires DotaLobby(lobby) && DefaultPolicy(cfg) && Orderly(cfg, st) && st.phase == Waiting
    requires p in st.members && Agrees(lobby, st, p, client)
    ensures AbsorbAll(lobby, cfg.crc, client, [CountdownCancelled]) == Some(client)
  {
    hide Orderly, Follows, Shows, Speak;
    SpeechTaken(lobby, cfg, st, st, CountdownCancelled, lobby.host.playerId, LobbyCancelled, p, client);
  }

  /** A departure from a game reaches a remaining agent as a leave of a player it knows. */
  lemma GameDepartureTaken(lobby: Lobby, cfg: Config, st: State, st': State, x: u8, reason: LeaveReason,
                           next: Roster, p: u8, client: Client)
    requires DotaLobby(lobby) && DefaultPolicy(cfg) && Orderly(cfg, st) && Leaving(st, st', x, next) && p in st'.members
    requires st.phase != Waiting && !st.phase.Countdown?
    requires st'.phase == st.phase && st'.frames == st.frames
    requires Agrees(lobby, st, p, client)
    ensures var r := AbsorbAll(lobby, cfg.crc, client, [PlayerLeft(x, reason, next)]);
            r.Some? && Agrees(lobby, st', p, r.value)
  {
    hide Knows, Sees, GoodTickets, ValidRoster, SlotsFor, AbsorbAll, ShowAll, Find, Listing, GoodMember, NamesOf;
    if client.agent.finished {
      FinishedTaken(lobby, cfg.crc, client, [PlayerLeft(x, reason, next)]);
    } else {
      var roster := client.agent.roster;
      KnownRoster(cfg, st, p, roster);
      LeaveKnows(cfg, st, st', x, next, p);
      LeaveRoster(cfg, st, st', x, next, p);
      KnownRevision(st, p, roster);
      GoodMemberRange(cfg, st, x);
      forall q | q in st.members ensures SeatedAt(st.members[q]) <= roster.revision {
        AnnouncedIsKnown(st, p, roster, q);
      }
      assert RemovesOnly(roster, next, x);
      AbsorbOne(lobby, cfg.crc, client, PlayerLeft(x, reason, next));
      DepartureShown(lobby, client.warcraft, roster, next, x, LeaveCode(reason));
    }
  }

  lemma DepartTaken(lobby: Lobby, cfg: Config, st: State, x: u8, reason: LeaveReason, p: u8, client: Client)
    requires DotaLobby(lobby) && DefaultPolicy(cfg) && Orderly(cfg, st) && Allowed(cfg, st, Depart(x, reason))
    requires var st' := Apply(cfg, st, Depart(x, reason));
             st'.revision < U64_MAX && p in st'.members && Orderly(cfg, st')
    requires p in st.members && Agrees(lobby, st, p, client)
    ensures var e := Depart(x, reason);
            var r := AbsorbAll(lobby, cfg.crc, client, Sent(cfg, st, e));
            r.Some? && Agrees(lobby, Apply(cfg, st, e), p, r.value)
  {
    hide Agrees, GoodTickets, GoodMember, NamesOf, AbsorbAll, Listing;
    var st' := Apply(cfg, st, Depart(x, reason));
    var next := RosterOf(st'.revision, NamesOf(st'.members));
    DepartLeaves(cfg, st, x, reason);
    assert st'.members != map[];
    if st.phase == Waiting || st.phase.Countdown? {
      LobbyDepartureTaken(lobby, cfg, st, st', x, next, p, client);
      if st.phase.Countdown? {
        var client' := AbsorbAll(lobby, cfg.crc, client, [RosterUpdate(next)]).value;
        CancelTaken(lobby, cfg, st', p, client');
        AbsorbAppend(lobby, cfg.crc, client, [RosterUpdate(next)], [CountdownCancelled]);
        assert [RosterUpdate(next)] + [CountdownCancelled] == [RosterUpdate(next), CountdownCancelled];
      }
    } else {
      GameDepartureTaken(lobby, cfg, st, st', x, reason, next, p, client);
    }
  }

  // Newcomers, and those who watch them come.

  lemma EnterTaken(lobby: Lobby, cfg: Config, st: State, name: string, p: u8, client: Client)
    requires Orderly(cfg, st) && Allowed(cfg, st, Enter(name)) && Apply(cfg, st, Enter(name)).revision < U64_MAX
    requires p in st.members && Agrees(lobby, st, p, client)
    ensures AbsorbAll(lobby, cfg.crc, client, Sent(cfg, st, Enter(name))) == Some(client)
    ensures p in Apply(cfg, st, Enter(name)).members && Agrees(lobby, Apply(cfg, st, Enter(name)), p, client)
  {
    hide Knows, Shows, GoodTickets, GoodMember, NamesOf, Listing, LeastFree, ValidPlayerName;
    var st' := Apply(cfg, st, Enter(name));
    var id := LeastFree(st.members.Keys, 1, cfg.maximum).value;
    EnterEnters(cfg, st, name);
    EnterKnows(cfg, st, st', id, name, p, client.agent.roster);
  }

  /** The agent and Warcraft of a player welcomed with `roster`. */
  function Welcomed(lobby: Lobby, p: u8, roster: Roster): (client: Option<Client>)
  {
    var shown := ShowAll(Warcraft(p, map[], []), InitialWires(lobby, p, roster));
    if shown.Some? then Some(Client(Connected(p, roster), shown.value)) else None
  }

  lemma NewcomerAgrees(lobby: Lobby, cfg: Config, st: State, name: string)
    requires DotaLobby(lobby) && DefaultPolicy(cfg) && Orderly(cfg, st) && Allowed(cfg, st, Enter(name))
    requires var st' := Apply(cfg, st, Enter(name)); st'.revision < U64_MAX && Orderly(cfg, st')
    ensures var st' := Apply(cfg, st, Enter(name));
            var id := LeastFree(st.members.Keys, 1, cfg.maximum);
            && id.Some? && id.value in st'.members
            && var client := Welcomed(lobby, id.value, st'.members[id.value].ticket.roster);
               client.Some? && Agrees(lobby, st', id.value, client.value)
  {
    hide Knows, Sees, GoodTicket, GoodMember, NamesOf, Listing;
    hide LeastFree, ValidPlayerName, ValidRoster, ShowAll, SlotsFor, InitialWires, Find;
    var st' := Apply(cfg, st, Enter(name));
    var id := LeastFree(st.members.Keys, 1, cfg.maximum).value;
    EnterEnters(cfg, st, name);
    NewcomerKnows(cfg, st, st', id, name);
    TicketIsValid(cfg, st', id);
    HandshakeShown(lobby, id, st'.members[id].ticket.roster);
  }

  // Whole runs.

  /** The agent of member `p` has taken in the whole log since `p` took its seat. */
  predicate Accompanied(lobby: Lobby, cfg: Config, st: State, log: seq<Update>, p: u8)
    requires p in st.members
  {
    var ticket := st.members[p].ticket;
    var welcome := Welcomed(lobby, p, ticket.roster);
    && welcome.Some? && ticket.since <= |log|
    && var r := AbsorbAll(lobby, cfg.crc, welcome.value, log[ticket.since..]);
       r.Some? && Agrees(lobby, st, p, r.value)
  }

  lemma TakenAccompanies(lobby: Lobby, cfg: Config, st: State, st': State, log: seq<Update>, sent: seq<Update>, p: u8)
    requires p in st.members && p in st'.members && st'.members[p].ticket == st.members[p].ticket
    requires Accompanied(lobby, cfg, st, log, p)
    requires var client := AbsorbAll(lobby, cfg.crc, Welcomed(lobby, p, st.members[p].ticket.roster).value,
                                 log[st.members[p].ticket.since..]).value;
             var r := AbsorbAll(lobby, cfg.crc, client, sent);
             r.Some? && Agrees(lobby, st', p, r.value)
    ensures Accompanied(lobby, cfg, st', log + sent, p)
  {
    hide Agrees, Welcomed, AbsorbAll;
    var since := st.members[p].ticket.since;
    assert (log + sent)[since..] == log[since..] + sent;
    AbsorbAppend(lobby, cfg.crc, Welcomed(lobby, p, st.members[p].ticket.roster).value, log[since..], sent);
  }

  /** Whatever happens next, an agent in agreement takes it in and stays in agreement. */
  lemma EventTaken(lobby: Lobby, cfg: Config, st: State, e: Event, p: u8, client: Client)
    requires DotaLobby(lobby) && DefaultPolicy(cfg) && Orderly(cfg, st) && Allowed(cfg, st, e)
    requires Apply(cfg, st, e).revision < U64_MAX && Orderly(cfg, Apply(cfg, st, e))
    requires p in st.members && p in Apply(cfg, st, e).members && Agrees(lobby, st, p, client)
    ensures var r := AbsorbAll(lobby, cfg.crc, client, Sent(cfg, st, e));
            r.Some? && Agrees(lobby, Apply(cfg, st, e), p, r.value)
  {
    hide *;
    match e
    case Enter(name) => EnterTaken(lobby, cfg, st, name, p, client);
    case Announce(q) => AnnounceTaken(lobby, cfg, st, q, p, client);
    case Say(q, message) => SayTaken(lobby, cfg, st, q, message, p, client);
    case BeginCountdown => CountdownTaken(lobby, cfg, st, e, p, client);
    case Tick => CountdownTaken(lobby, cfg, st, e, p, client);
    case Begin => BeginTaken(lobby, cfg, st, p, client);
    case Load(q) => LoadTaken(lobby, cfg, st, q, p, client);
    case Play => PlayTaken(lobby, cfg, st, p, client);
    case Slot(frame) => SlotTaken(lobby, cfg, st, frame, p, client);
    case End(cause) => EndTaken(lobby, cfg, st, cause, p, client);
    case Depart(x, reason) => DepartTaken(lobby, cfg, st, x, reason, p, client);
  }

  lemma EventKeepsTickets(cfg: Config, st: State, e: Event)
    requires DefaultPolicy(cfg) && Orderly(cfg, st) && Allowed(cfg, st, e) && Apply(cfg, st, e).revision < U64_MAX
    ensures GoodTickets(cfg, Apply(cfg, st, e))
  {
    hide ValidRoster, Listing, Find, LeastFree, ValidPlayerName, PhaseOrder, ProperSlot, NamesOf, GoodTicket;
    var st' := Apply(cfg, st, e);
    if e.Enter? {
      hide GoodMember, Allowed, Apply, Sent;
      EnterEnters(cfg, st, e.name);
      EnterEmitted(cfg, st, e.name);
      EnterTickets(cfg, st, st', LeastFree(st.members.Keys, 1, cfg.maximum).value, e.name);
    } else if e.Depart? {
      hide GoodMember, Allowed, Apply, Sent;
      DepartLeaves(cfg, st, e.player, e.reason);
      EmittedGrows(cfg, st, e);
      LeaveTickets(cfg, st, st', e.player, RosterOf(st'.revision, NamesOf(st'.members)));
    } else {
      hide GoodMember;
      forall q | q in st'.members ensures GoodTicket(cfg, st', q) {
        SameTicket(cfg, st, st', q);
      }
    }
  }

  lemma EnterEmitted(cfg: Config, st: State, name: string)
    requires Allowed(cfg, st, Enter(name))
    ensures Apply(cfg, st, Enter(name)).emitted == st.emitted
  {
    hide LeastFree, ValidPlayerName, NamesOf;
  }

  lemma EmittedGrows(cfg: Config, st: State, e: Event)
    requires Allowed(cfg, st, e)
    ensures Apply(cfg, st, e).emitted >= st.emitted
  {
    hide Allowed, Sent, LeastFree, NamesOf;
  }

  lemma SameTicket(cfg: Config, st: State, st': State, q: u8)
    requires q in st.members && q in st'.members && GoodTicket(cfg, st, q)
    requires st'.members[q].ticket == st.members[q].ticket && st'.members[q].name == st.members[q].name
    requires st'.revision >= st.revision && st'.emitted >= st.emitted
    ensures GoodTicket(cfg, st', q)
  {
    hide ValidRoster, Find;
  }

  lemma EventKeepsOrderly(cfg: Config, st: State, e: Event)
    requires DefaultPolicy(cfg) && Orderly(cfg, st) && Allowed(cfg, st, e) && Apply(cfg, st, e).revision < U64_MAX
    ensures Orderly(cfg, Apply(cfg, st, e))
  {
    hide WellFormed, GoodTickets, Allowed, Apply, Sent;
    EventKeepsWellFormed(cfg, st, e);
    EventKeepsTickets(cfg, st, e);
    EventKeepsCountdown(cfg, st, e);
  }

  lemma EventKeepsCountdown(cfg: Config, st: State, e: Event)
    requires DefaultPolicy(cfg) && WholeCountdown(st) && Allowed(cfg, st, e)
    ensures WholeCountdown(Apply(cfg, st, e))
  {
    hide LeastFree, ValidPlayerName, NamesOf, ProperSlot, ValidChatMessage;
  }

  /** Every member's agent is in agreement. */
  predicate AllAccompanied(lobby: Lobby, cfg: Config, st: State, log: seq<Update>)
  {
    |log| == st.emitted && forall p | p in st.members :: Accompanied(lobby, cfg, st, log, p)
  }

  /** Who was there before and still is has kept its ticket; only `Enter` brings somebody new. */
  lemma WhoIsThere(cfg: Config, st: State, e: Event, p: u8)
    requires Allowed(cfg, st, e) && p in Apply(cfg, st, e).members
    ensures var st' := Apply(cfg, st, e);
            if p in st.members then st'.members[p].ticket == st.members[p].ticket
            else
              && e.Enter? && LeastFree(st.members.Keys, 1, cfg.maximum) == Some(p)
              && st'.members[p].ticket.since == st.emitted && Sent(cfg, st, e) == []
  {
    hide LeastFree, NamesOf, ProperSlot, ValidPlayerName, ValidChatMessage;
    if e.Enter? {
      LeastFreeInRange(st.members.Keys, 1, cfg.maximum);
    }
  }

  lemma EventAccompanied(lobby: Lobby, cfg: Config, st: State, log: seq<Update>, e: Event, p: u8)
    requires DotaLobby(lobby) && DefaultPolicy(cfg) && Orderly(cfg, st) && Allowed(cfg, st, e)
    requires Apply(cfg, st, e).revision < U64_MAX && Orderly(cfg, Apply(cfg, st, e))
    requires AllAccompanied(lobby, cfg, st, log) && p in Apply(cfg, st, e).members
    ensures Accompanied(lobby, cfg, Apply(cfg, st, e), log + Sent(cfg, st, e), p)
  {
    hide Allowed, Apply, Sent, Orderly, Agrees, AbsorbAll, Welcomed, LeastFree;
    var st' := Apply(cfg, st, e);
    WhoIsThere(cfg, st, e, p);
    if p in st.members {
      assert Accompanied(lobby, cfg, st, log, p);
      var ticket := st.members[p].ticket;
      var client := AbsorbAll(lobby, cfg.crc, Welcomed(lobby, p, ticket.roster).value, log[ticket.since..]).value;
      EventTaken(lobby, cfg, st, e, p, client);
      TakenAccompanies(lobby, cfg, st, st', log, Sent(cfg, st, e), p);
    } else {
      NewcomerAgrees(lobby, cfg, st, e.name);
      assert (log + [])[|log|..] == [];
      AbsorbNone(lobby, cfg.crc, Welcomed(lobby, p, st'.members[p].ticket.roster).value);
    }
  }

  lemma EmittedLog(cfg: Config, st: State, log: seq<Update>, e: Event)
    requires Allowed(cfg, st, e) && |log| == st.emitted
    ensures |log + Sent(cfg, st, e)| == Apply(cfg, st, e).emitted
  {
    hide Allowed, Sent, LeastFree, NamesOf;
  }

  lemma RevisionGrows(cfg: Config, st: State, e: Event)
    requires Allowed(cfg, st, e)
    ensures Apply(cfg, st, e).revision >= st.revision
  {
    hide Allowed, Sent, LeastFree, NamesOf;
  }

  lemma {:induction false} RunRevisionGrows(cfg: Config, st: State, log: seq<Update>, events: seq<Event>,
                                            st': State, log': seq<Update>)
    requires Leads(cfg, st, log, events, st', log')
    ensures st'.revision >= st.revision
    decreases |events|
  {
    hide Allowed, Apply, Sent;
    if events != [] {
      RevisionGrows(cfg, st, events[0]);
      RunRevisionGrows(cfg, Apply(cfg, st, events[0]), log + Sent(cfg, st, events[0]), events[1..], st', log');
    }
  }

  lemma {:induction false} RunAccompanied(lobby: Lobby, cfg: Config, st: State, log: seq<Update>, events: seq<Event>,
                                          st': State, log': seq<Update>)
    requires DotaLobby(lobby) && DefaultPolicy(cfg) && Orderly(cfg, st) && AllAccompanied(lobby, cfg, st, log)
    requires Leads(cfg, st, log, events, st', log') && st'.revision < U64_MAX
    ensures Orderly(cfg, st') && AllAccompanied(lobby, cfg, st', log')
    decreases |events|
  {
    hide Allowed, Apply, Sent, Orderly, Accompanied;
    if events != [] {
      var e := events[0];
      var st1 := Apply(cfg, st, e);
      var log1 := log + Sent(cfg, st, e);
      RunRevisionGrows(cfg, st1, log1, events[1..], st', log');
      EventKeepsOrderly(cfg, st, e);
      EmittedLog(cfg, st, log, e);
      forall p | p in st1.members ensures Accompanied(lobby, cfg, st1, log1, p) {
        EventAccompanied(lobby, cfg, st, log, e, p);
      }
      RunAccompanied(lobby, cfg, st1, log1, events[1..], st', log');
    }
  }

  lemma InitialIsOrderly(lobby: Lobby, cfg: Config, revision: u64)
    requires revision >= 1
    ensures Orderly(cfg, Initial(revision)) && AllAccompanied(lobby, cfg, Initial(revision), [])
  {
  }

  // The same about the server.

  /**
   For every interleaving of server steps, the agent of every present player accepts the roster it was welcomed
   with and every update broadcast since its join, and ends in agreement with the server; Warcraft's tables follow.
   */
  lemma AgentsNeverReject(lobby: Lobby, cfg: Config, revision: u64, steps: seq<Server.Step>, p: u8)
    requires DotaLobby(lobby) && DefaultPolicy(cfg) && revision >= 1
    requires var w := Server.WorldAfter(cfg, revision, steps); w.room.revision < U64_MAX && p in w.room.players
    ensures var w := Server.WorldAfter(cfg, revision, steps);
            var player := w.room.players[p];
            var ticket := Refinement.TicketOf(w, player.session);
            var welcome := Welcomed(lobby, p, ticket.roster);
            && Accepts(p, player.name, ticket.roster)
            && ticket.since <= |w.log|
            && welcome.Some?
            && var client := AbsorbAll(lobby, cfg.crc, welcome.value, w.log[ticket.since..]);
               client.Some? && Agrees(lobby, Refinement.Abs(w), p, client.value)
  {
    hide Server.WorldAfter, Leads, Agrees, AbsorbAll, Welcomed, WellFormed, ValidRoster, Find, Refinement.TicketOf;
    var w := Server.WorldAfter(cfg, revision, steps);
    var st := Refinement.Abs(w);
    Refinement.ServerFollowsProtocol(cfg, revision, steps);
    InitialIsOrderly(lobby, cfg, revision);
    RunAccompanied(lobby, cfg, Initial(revision), [], w.history.events, st, w.log);
    Refinement.MemberAt(w, p);
    assert Accompanied(lobby, cfg, st, w.log, p);
    assert GoodTicket(cfg, st, p);
  }

  /** During a game an agent lists exactly the present players, and sees frames only once all of them have loaded. */
  lemma AgentInGame(cfg: Config, st: State, p: u8, a: Agent)
    requires DefaultPolicy(cfg) && Orderly(cfg, st) && p in st.members && Follows(st, p, a) && InGame(st.phase)
    ensures a.roster.players == RosterOf(st.revision, NamesOf(st.members)).players
    ensures st.phase == Playing ==> forall q: u8 :: q in a.loaded <==> Player(a.roster, q).Some?
  {
    hide Listing, GoodTickets, GoodMember, Find;
    forall q | q in st.members ensures SeatedAt(st.members[q]) <= a.roster.revision {
      AnnouncedIsKnown(st, p, a.roster, q);
    }
    assert NamesUpTo(st.members, a.roster.revision) == NamesOf(st.members);
    KnownRoster(cfg, st, p, a.roster);
  }

  /** The key to it: once a countdown runs or a game has started, no join roster is still to be sent. */
  lemma RostersPrecedeStart(cfg: Config, revision: u64, steps: seq<Server.Step>)
    requires cfg.Valid() && revision >= 1
    ensures var w := Server.WorldAfter(cfg, revision, steps);
            w.room.countdownActive || w.room.started ==>
              forall s | s in w.inflight :: !w.inflight[s].update.RosterUpdate?
  {
    hide Server.WorldAfter, Leads;
    var w := Server.WorldAfter(cfg, revision, steps);
    Refinement.ServerFollowsProtocol(cfg, revision, steps);
    if w.room.countdownActive || w.room.started {
      forall s | s in w.inflight ensures !w.inflight[s].update.RosterUpdate? {
        Refinement.OwesNow(w, s);
      }
    }
  }
}
