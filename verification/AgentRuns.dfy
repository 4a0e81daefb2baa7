/** What agents and their Warcraft clients have been through in whole runs of the server. */
module AgentRuns {
  import opened Bytes
  import opened Actions
  import opened GameTunnel
  import opened Rosters
  import opened RoomModel
  import RoomInvariant
  import opened Slots
  import opened AgentModel
  import opened Compatibility
  import Protocol
  import Server
  import Refinement

  /** The agent of a present player and its Warcraft, having taken in the log from the player's join onward. */
  ghost function ClientOf(lobby: Lobby, cfg: Config, w: Server.World, p: u8): (client: Option<Client>)
    requires p in w.room.players
  {
    var ticket := Refinement.TicketOf(w, w.room.players[p].session);
    var welcome := Welcomed(lobby, p, ticket.roster);
    if welcome.None? || ticket.since > |w.log| then None
    else AbsorbAll(lobby, cfg.crc, welcome.value, w.log[ticket.since..])
  }

  lemma ClientAgrees(lobby: Lobby, cfg: Config, revision: u64, steps: seq<Server.Step>, p: u8)
    requires DotaLobby(lobby) && DefaultPolicy(cfg) && revision >= 1
    requires var w := Server.WorldAfter(cfg, revision, steps); w.room.revision < U64_MAX && p in w.room.players
    ensures var w := Server.WorldAfter(cfg, revision, steps);
            var client := ClientOf(lobby, cfg, w, p);
            client.Some? && Agrees(lobby, Refinement.Abs(w), p, client.value)
  {
    hide Server.WorldAfter, Agrees, AbsorbAll, Welcomed, Accepts, Refinement.TicketOf;
    AgentsNeverReject(lobby, cfg, revision, steps, p);
  }

  // Games.

  /**
   In every run, while a game is on, the agent of every present player lists exactly the players present, holds
   exactly those for loaded who are, and has received exactly the frames published.
   */
  lemma AgentsInGame(lobby: Lobby, cfg: Config, revision: u64, steps: seq<Server.Step>, p: u8)
    requires DotaLobby(lobby) && DefaultPolicy(cfg) && revision >= 1
    requires var w := Server.WorldAfter(cfg, revision, steps);
             && w.room.revision < U64_MAX && p in w.room.players
             && w.room.started && !w.room.gameEnded
    ensures var w := Server.WorldAfter(cfg, revision, steps);
            var client := ClientOf(lobby, cfg, w, p);
            && client.Some?
            && var a := client.value.agent;
               && a.started && !a.finished
               && a.roster.players == w.room.Roster().players
               && (forall q: u8 :: q in a.loaded <==> q in w.room.players && w.room.players[q].loaded)
               && (w.room.gameplayActive ==> a.loaded == w.room.players.Keys)
               && a.received == w.room.gameplaySequence
  {
    hide Server.WorldAfter, Protocol.Leads, ClientOf, Orderly, Knows, Shows, RoomInvariant.Valid, Listing, Find;
    var w := Server.WorldAfter(cfg, revision, steps);
    ClientAgrees(lobby, cfg, revision, steps, p);
    var client := ClientOf(lobby, cfg, w, p).value;
    RunIsOrderly(lobby, cfg, revision, steps);
    RunKeepsRooms(cfg, revision, steps);
    RoomInvariant.PhaseMeaning(cfg, w.room);
    AgentInGame(cfg, Refinement.Abs(w), p, client.agent);
    SameRoster(w);
  }

  lemma RunIsOrderly(lobby: Lobby, cfg: Config, revision: u64, steps: seq<Server.Step>)
    requires DotaLobby(lobby) && DefaultPolicy(cfg) && revision >= 1
    requires Server.WorldAfter(cfg, revision, steps).room.revision < U64_MAX
    ensures Orderly(cfg, Refinement.Abs(Server.WorldAfter(cfg, revision, steps)))
  {
    hide Server.WorldAfter, Protocol.Leads, Orderly, AllAccompanied, Refinement.Sound;
    var w := Server.WorldAfter(cfg, revision, steps);
    Refinement.ServerFollowsProtocol(cfg, revision, steps);
    InitialIsOrderly(lobby, cfg, revision);
    RunAccompanied(lobby, cfg, Protocol.Initial(revision), [], w.history.events, Refinement.Abs(w), w.log);
  }

  /** The members of the protocol state are the players of the room. */
  lemma SameRoster(w: Server.World)
    ensures var st := Refinement.Abs(w);
            Protocol.NamesOf(st.members) == Names(w.room.players)
            && forall q | q in w.room.players :: st.members[q].loaded == w.room.players[q].loaded
  {
    forall q | q in w.room.players
      ensures Refinement.MembersOf(w)[q] == Refinement.MemberOf(w, w.room.players[q])
    {
      Refinement.MemberAt(w, q);
    }
  }

  lemma RunKeepsRooms(cfg: Config, revision: u64, steps: seq<Server.Step>)
    requires cfg.Valid() && revision >= 1
    ensures RoomInvariant.Valid(cfg, Server.WorldAfter(cfg, revision, steps).room)
  {
    hide Server.WorldAfter, Protocol.Leads, RoomInvariant.Valid;
    Refinement.ServerFollowsProtocol(cfg, revision, steps);
  }

  // Loading confirmations.

  /** What an agent writes to Warcraft when it takes in one update. */
  function Written(lobby: Lobby, crc: Crc, client: Client, u: Update): (wires: seq<Wire>)
  {
    var answer := On(lobby, crc, client.agent, u);
    if client.agent.finished || answer.Err? then [] else answer.value.wires
  }

  function AllWritten(lobby: Lobby, crc: Crc, client: Client, updates: seq<Update>): (wires: seq<Wire>)
    decreases |updates|
  {
    if updates == [] then []
    else
      var next := Absorb(lobby, crc, client, updates[0]);
      Written(lobby, crc, client, updates[0])
      + if next.None? then [] else AllWritten(lobby, crc, next.value, updates[1..])
  }

  /** How many frames tell Warcraft that `id` has loaded. */
  function LoadedFrames(wires: seq<Wire>, id: u8): (count: nat)
  {
    multiset(wires)[LoadedOthers(id)]
  }

  lemma {:induction false} DeparturesLoadNobody(players: seq<LobbyPlayer>, next: Roster, self: u8, id: u8)
    ensures LoadedFrames(Departures(players, next, self), id) == 0
    decreases |players|
  {
    if players != [] {
      DeparturesLoadNobody(players[1..], next, self, id);
    }
  }

  lemma {:induction false} ArrivalsLoadNobody(players: seq<LobbyPlayer>, previous: Roster, self: u8, id: u8)
    ensures LoadedFrames(Arrivals(players, previous, self), id) == 0
    decreases |players|
  {
    if players != [] {
      ArrivalsLoadNobody(players[1..], previous, self, id);
    }
  }

  /** One update: confirmations of the own player written, and whether it was and is held for loaded. */
  lemma OwnLoadingIsCounted(lobby: Lobby, crc: Crc, a: Agent, u: Update)
    requires a.id != lobby.host.playerId && On(lobby, crc, a, u).Ok?
    ensures var r := On(lobby, crc, a, u).value;
            && (LoadedOthers(a.id) in r.wires <==> u == PlayerLoaded(a.id) && a.id !in a.loaded)
            && r.agent.id == a.id
            && LoadedFrames(r.wires, a.id) + (if a.id in a.loaded then 1 else 0)
               == if a.id in r.agent.loaded then 1 else 0
  {
    hide Departures, Arrivals, ValidRoster, Find, Deliver, DecodeTimeslot, SlotsFor, ValidRecipients, Ids;
    var r := On(lobby, crc, a, u).value;
    if u.RosterUpdate? {
      DeparturesLoadNobody(a.roster.players, u.roster, a.id, a.id);
      ArrivalsLoadNobody(u.roster.players, a.roster, a.id, a.id);
    }
    assert LoadedOthers(a.id) in r.wires <==> LoadedFrames(r.wires, a.id) > 0;
  }

  /**
   An accepted report that the agent's own player has loaded is echoed to that player's Warcraft exactly the
   first time, and nothing else an agent writes says that.
   */
  lemma OwnLoadingIsEchoed(lobby: Lobby, crc: Crc, a: Agent, u: Update)
    requires a.id != lobby.host.playerId && On(lobby, crc, a, u).Ok?
    ensures var r := On(lobby, crc, a, u).value;
            LoadedOthers(a.id) in r.wires <==> u == PlayerLoaded(a.id) && a.id !in a.loaded
  {
    hide On;
    OwnLoadingIsCounted(lobby, crc, a, u);
  }

  /** Over any accepted updates the agent's own player is confirmed once, if it has loaded since, and never again. */
  lemma {:induction false} OwnLoadingIsEchoedOnce(lobby: Lobby, crc: Crc, client: Client, updates: seq<Update>)
    requires client.agent.id != lobby.host.playerId && AbsorbAll(lobby, crc, client, updates).Some?
    ensures var a, a' := client.agent, AbsorbAll(lobby, crc, client, updates).value.agent;
            && a'.id == a.id
            && LoadedFrames(AllWritten(lobby, crc, client, updates), a.id) + (if a.id in a.loaded then 1 else 0)
               == if a.id in a'.loaded then 1 else 0
    decreases |updates|
  {
    hide On, ShowAll;
    if updates != [] {
      var next := Absorb(lobby, crc, client, updates[0]).value;
      if !client.agent.finished {
        OwnLoadingIsCounted(lobby, crc, client.agent, updates[0]);
      }
      OwnLoadingIsEchoedOnce(lobby, crc, next, updates[1..]);
    }
  }

  /**
   In every run the Warcraft of a present player has been told that its own player has loaded exactly once if
   the player has, and not at all otherwise.
   */
  lemma OwnLoadingReachesWarcraft(lobby: Lobby, cfg: Config, revision: u64, steps: seq<Server.Step>, p: u8)
    requires DotaLobby(lobby) && DefaultPolicy(cfg) && revision >= 1
    requires var w := Server.WorldAfter(cfg, revision, steps); w.room.revision < U64_MAX && p in w.room.players
    ensures var w := Server.WorldAfter(cfg, revision, steps);
            var ticket := Refinement.TicketOf(w, w.room.players[p].session);
            var welcome := Welcomed(lobby, p, ticket.roster);
            && welcome.Some? && ticket.since <= |w.log|
            && var wires := AllWritten(lobby, cfg.crc, welcome.value, w.log[ticket.since..]);
               LoadedFrames(wires, p) == if w.room.players[p].loaded then 1 else 0
  {
    hide Server.WorldAfter, AbsorbAll, AllWritten, LoadedFrames, Refinement.TicketOf, Follows, ShowAll, InitialWires,
      Protocol.Leads, RoomInvariant.Valid, Refinement.Sound;
    var w := Server.WorldAfter(cfg, revision, steps);
    AgentsNeverReject(lobby, cfg, revision, steps, p);
    SameRoster(w);
    var ticket := Refinement.TicketOf(w, w.room.players[p].session);
    var welcome := Welcomed(lobby, p, ticket.roster);
    var client := AbsorbAll(lobby, cfg.crc, welcome.value, w.log[ticket.since..]).value;
    OwnLoadingIsEchoedOnce(lobby, cfg.crc, welcome.value, w.log[ticket.since..]);
    MemberIsNotHost(lobby, cfg, revision, steps, p);
    LoadedAgrees(lobby, Refinement.Abs(w), p, client);
  }

  lemma LoadedAgrees(lobby: Lobby, st: Protocol.State, p: u8, client: Client)
    requires p in st.members && Agrees(lobby, st, p, client)
    ensures p in client.agent.loaded <==> st.members[p].loaded
  {
    hide Knows, Shows;
  }

  lemma MemberIsNotHost(lobby: Lobby, cfg: Config, revision: u64, steps: seq<Server.Step>, p: u8)
    requires DotaLobby(lobby) && DefaultPolicy(cfg) && revision >= 1
    requires p in Server.WorldAfter(cfg, revision, steps).room.players
    ensures p != lobby.host.playerId
  {
    hide Server.WorldAfter;
    RunKeepsRooms(cfg, revision, steps);
    assert RoomInvariant.GoodSeat(cfg, Server.WorldAfter(cfg, revision, steps).room, p);
  }
}
