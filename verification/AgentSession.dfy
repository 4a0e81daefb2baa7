/** The agent's session loop: local variables updated event by event, frames written to Warcraft as it goes. */
module LobbySession {
  import opened Bytes
  import opened Text
  import opened Frames
  import opened Actions
  import opened GameTunnel
  import opened Rosters
  import opened RoomModel
  import opened Slots
  import opened AgentModel

  class AgentSession {
    const lobby: Lobby
    const crc: Crc
    const id: u8
    var roster: Roster
    var gameStarted: bool
    var loadedPlayers: set<u8>
    var lastReceived: u64
    var lastSent: u64
    var readySent: bool
    var loadedSent: bool
    var finished: bool

    /** What has been written to Warcraft. */
    var wires: seq<Wire>

    /** What has been sent to the server: control messages and tunnelled frames. */
    var outbox: seq<ToServer>

    ghost predicate Valid()
      reads this
    {
      && DotaLobby(lobby)
      && ValidRoster(roster, DOTA_HUMAN_SLOTS)
      && Player(roster, id).Some?
    }

    ghost function View(): (a: Agent)
      reads this
    {
      Agent(id, roster, gameStarted, loadedPlayers, lastReceived, finished)
    }

    /** The frames sent so far are numbered 1 to `lastSent`. */
    ghost predicate Counted()
      reads this
    {
      InSequence(SentNumbers(outbox)) && |SentNumbers(outbox)| == lastSent
    }

    constructor (lobby: Lobby, crc: Crc, id: u8, roster: Roster)
      requires DotaLobby(lobby) && ValidRoster(roster, DOTA_HUMAN_SLOTS) && Player(roster, id).Some?
      ensures Valid() && View() == Connected(id, roster)
      ensures wires == InitialWires(lobby, id, roster) && outbox == []
      ensures this.lobby == lobby && this.crc == crc && this.id == id
      ensures !readySent && !loadedSent && lastSent == 0
      ensures Counted()
    {
      this.lobby := lobby;
      this.crc := crc;
      this.id := id;
      this.roster := roster;
      gameStarted := false;
      loadedPlayers := {};
      lastReceived := 0;
      lastSent := 0;
      readySent := false;
      loadedSent := false;
      finished := false;
      wires := [];
      outbox := [];
      new;
      WriteHandshake();
    }

    method WriteHandshake()
      requires Valid() && wires == []
      modifies this`wires
      ensures wires == InitialWires(lobby, id, roster)
    {
      hide Infos, SkinsOf, Profiles, Table, Valid;
      wires := wires + [SlotJoin(Table(lobby, roster), id)];
      wires := wires + [SlotTable(Table(lobby, roster))];
      wires := wires + [PlayerInfo(lobby.host.playerId, lobby.host.name)];
      WriteInfos();
      wires := wires + [PlayerSkins(lobby.host.playerId)];
      WriteSkins();
      wires := wires + [PlayerProfile(lobby.host.playerId, lobby.host.name)];
      WriteProfiles();
      wires := wires + [MapCheck];
    }

    method WriteInfos()
      modifies this`wires
      ensures wires == old(wires) + Infos(roster.players, id)
    {
      for i := 0 to |roster.players|
        invariant wires + Infos(roster.players[i..], id) == old(wires) + Infos(roster.players, id)
      {
        var player := roster.players[i];
        NextInfo(roster.players, i, id, wires);
        if player.playerId != id {
          wires := wires + [PlayerInfo(player.playerId, player.name)];
        }
      }
      assert Infos(roster.players[|roster.players|..], id) == [];
    }

    method WriteSkins()
      modifies this`wires
      ensures wires == old(wires) + SkinsOf(roster.players, id)
    {
      for i := 0 to |roster.players|
        invariant wires + SkinsOf(roster.players[i..], id) == old(wires) + SkinsOf(roster.players, id)
      {
        var player := roster.players[i];
        NextSkins(roster.players, i, id, wires);
        if player.playerId != id {
          wires := wires + [PlayerSkins(player.playerId)];
        }
      }
      assert SkinsOf(roster.players[|roster.players|..], id) == [];
    }

    method WriteProfiles()
      modifies this`wires
      ensures wires == old(wires) + Profiles(roster.players)
    {
      for i := 0 to |roster.players|
        invariant wires + Profiles(roster.players[i..]) == old(wires) + Profiles(roster.players)
      {
        var player := roster.players[i];
        NextProfile(roster.players, i, wires);
        wires := wires + [PlayerProfile(player.playerId, player.name)];
      }
      assert Profiles(roster.players[|roster.players|..]) == [];
    }

    method WriteDepartures(next: Roster)
      modifies this`wires
      ensures wires == old(wires) + Departures(roster.players, next, id)
    {
      for i := 0 to |roster.players|
        invariant wires + Departures(roster.players[i..], next, id) == old(wires) + Departures(roster.players, next, id)
      {
        var player := roster.players[i];
        NextDeparture(roster.players, i, next, id, wires);
        if player.playerId != id && Player(next, player.playerId) != Some(player) {
          wires := wires + [PlayerLeave(player.playerId, LEAVE_LOBBY_CODE)];
        }
      }
      assert Departures(roster.players[|roster.players|..], next, id) == [];
    }

    method WriteArrivals(next: Roster)
      modifies this`wires
      ensures wires == old(wires) + Arrivals(next.players, roster, id)
    {
      for i := 0 to |next.players|
        invariant wires + Arrivals(next.players[i..], roster, id) == old(wires) + Arrivals(next.players, roster, id)
      {
        var player := next.players[i];
        NextArrival(next.players, i, roster, id, wires);
        if player.playerId != id && Player(roster, player.playerId) != Some(player) {
          ghost var before := wires;
          wires := wires + [PlayerInfo(player.playerId, player.name)];
          wires := wires + [PlayerSkins(player.playerId)];
          wires := wires + [PlayerProfile(player.playerId, player.name)];
          assert wires == before + Introduction(player);
        }
      }
      assert Arrivals(next.players[|next.players|..], roster, id) == [];
    }

    /** Leaves first, then introductions, then the slots. */
    method ApplyRosterUpdate(next: Roster)
      requires Valid() && ValidRoster(next, DOTA_HUMAN_SLOTS)
      modifies this`wires
      ensures wires == old(wires) + RosterWires(lobby, roster, next, id)
    {
      hide Departures, Arrivals, ValidRoster;
      WriteDepartures(next);
      WriteArrivals(next);
      var slots := BuildSlots(lobby, next);
      wires := wires + [SlotTable(slots.value)];
    }

    method SendChat(from: u8, text: ChatText) returns (error: Option<AgentError>)
      modifies this`wires
      ensures Answers(Speak(old(View()), from, text), old(wires), error)
    {
      var recipients: seq<u8> := [];
      for i := 0 to |roster.players|
        invariant recipients == Ids(roster.players)[..i]
      {
        recipients := recipients + [roster.players[i].playerId];
      }
      assert recipients == Ids(roster.players);
      if from == 0 || !ValidRecipients(recipients) || (text.Spoken? && !ValidChatMessage(text.message)) {
        return Some(ChatNotEncodable);
      }
      wires := wires + [ChatFromHost(from, recipients, text)];
      return None;
    }

    method HandleRoster(next: Roster) returns (error: Option<AgentError>)
      requires Valid()
      modifies this`wires, this`roster
      ensures Valid()
      ensures Answers(OnRoster(lobby, old(View()), next), old(wires), error)
    {
      hide RosterWires;
      var invalid := Validate(next, DOTA_HUMAN_SLOTS);
      if invalid.Some? {
        return Some(RosterRejected);
      }
      if next.revision <= roster.revision {
        return None;
      }
      if Player(next, id).None? {
        return Some(LocalPlayerRemoved);
      }
      ApplyRosterUpdate(next);
      roster := next;
      return None;
    }

    /** The state and the frames written are those of `answer`; after an error the session is over. */
    ghost predicate Answers(answer: Answer, before: seq<Wire>, error: Option<AgentError>)
      reads this
    {
      match answer
      case Ok(reaction) => error == None && View() == reaction.agent && wires == before + reaction.wires
      case Err(e) => error == Some(e)
    }

    method HandleChat(from: u8, message: string) returns (error: Option<AgentError>)
      modifies this`wires
      ensures Answers(OnChat(old(View()), from, message), old(wires), error)
    {
      if from == 0 || from > DOTA_HUMAN_SLOTS {
        return Some(ChatSenderRejected);
      }
      if !ValidChatMessage(message) {
        return Some(ChatMessageRejected);
      }
      if Player(roster, from).None? {
        return Some(ChatSenderUnknown);
      }
      error := SendChat(from, Spoken(message));
    }

    method HandleCountdown(seconds: u8) returns (error: Option<AgentError>)
      modifies this`wires
      ensures Answers(OnCountdown(lobby, old(View()), seconds), old(wires), error)
    {
      if seconds == 0 || seconds > LOBBY_COUNTDOWN_SECONDS || seconds % LOBBY_COUNTDOWN_STEP_SECONDS != 0 {
        return Some(CountdownRejected);
      }
      error := SendChat(lobby.host.playerId, SecondsLeft(seconds));
    }

    method HandleStart() returns (error: Option<AgentError>)
      modifies this`wires, this`gameStarted
      ensures Answers(OnStart(lobby, old(View())), old(wires), error)
    {
      if gameStarted {
        return None;
      }
      wires := wires + [CountdownStart];
      wires := wires + [CountdownEnd];
      wires := wires + [LoadedOthers(lobby.host.playerId)];
      gameStarted := true;
      return None;
    }

    method HandleLoaded(player: u8) returns (error: Option<AgentError>)
      modifies this`wires, this`loadedPlayers
      ensures Answers(OnLoaded(old(View()), player), old(wires), error)
    {
      if player == 0 || player > DOTA_HUMAN_SLOTS {
        return Some(LoadedPlayerRejected);
      }
      if !gameStarted {
        return Some(LoadedBeforeStart);
      }
      if Player(roster, player).None? {
        return Some(LoadedPlayerUnknown);
      }
      if player in loadedPlayers {
        return None;
      }
      loadedPlayers := loadedPlayers + {player};
      wires := wires + [LoadedOthers(player)];
      return None;
    }

    method HandleLeft(player: u8, reason: LeaveReason, next: Roster) returns (error: Option<AgentError>)
      requires Valid()
      modifies this`wires, this`loadedPlayers, this`roster
      ensures Valid()
      ensures Answers(OnLeft(old(View()), player, reason, next), old(wires), error)
    {
      hide ValidRoster, Player, DotaLobby;
      if player == 0 || player > DOTA_HUMAN_SLOTS || player == id {
        return Some(DepartedPlayerRejected);
      }
      var invalid := Validate(next, DOTA_HUMAN_SLOTS);
      if invalid.Some? {
        return Some(RosterRejected);
      }
      if Player(next, player).Some? || Player(next, id).None? {
        return Some(DepartureInconsistent);
      }
      if !gameStarted {
        return Some(LeftBeforeStart);
      }
      if Player(roster, player).None? {
        return Some(DepartedPlayerUnknown);
      }
      if next.revision <= roster.revision {
        return Some(DepartureStale);
      }
      wires := wires + [PlayerLeave(player, LeaveCode(reason))];
      loadedPlayers := loadedPlayers - {player};
      roster := next;
      return None;
    }

    method HandleFrame(sequence: u64, bytes: seq<u8>) returns (error: Option<AgentError>)
      modifies this`wires, this`lastReceived
      ensures Answers(OnFrame(crc, old(View()), sequence, bytes), old(wires), error)
    {
      hide Deliver, DecodeTimeslot;
      var delivered := Deliver(FromServer, sequence, bytes);
      if delivered.Err? {
        return Some(TunnelRejected);
      }
      var (received, frame) := delivered.value;
      if lastReceived == U64_MAX {
        return Some(SequenceExhausted);
      }
      if received != lastReceived + 1 {
        return Some(SequenceMismatch(lastReceived + 1, received));
      }
      var slot := DecodeTimeslot(crc, frame);
      if slot.Err? {
        return Some(TimeslotRejected);
      }
      lastReceived := received;
      if !gameStarted {
        return Some(FrameBeforeStart);
      }
      wires := wires + [Timeslots(frame, slot.value)];
      return None;
    }

    method HandleEnd() returns (error: Option<AgentError>)
      modifies this`wires, this`finished
      ensures Answers(OnEnd(lobby, old(View())), old(wires), error)
    {
      if !gameStarted {
        return Some(EndBeforeStart);
      }
      wires := wires + [GameOver(lobby.host.playerId)];
      finished := true;
      return None;
    }

    /** One event of the session loop. */
    method Handle(u: Update) returns (error: Option<AgentError>)
      requires Valid()
      modifies this
      ensures Valid()
      ensures Answers(On(lobby, crc, old(View()), u), old(wires), error)
      ensures lastSent == old(lastSent) && outbox == old(outbox)
      ensures readySent == old(readySent) && loadedSent == old(loadedSent)
    {
      hide OnRoster, OnChat, OnCountdown, OnLoaded, OnLeft, OnFrame;
      hide OnStart, OnEnd, Speak, ValidRoster, Player, DotaLobby;
      match u
      case RosterUpdate(next) => error := HandleRoster(next);
      case CountdownUpdate(seconds) => error := HandleCountdown(seconds);
      case CountdownCancelled => error := SendChat(lobby.host.playerId, LobbyCancelled);
      case Chat(from, message) => error := HandleChat(from, message);
      case Start => error := HandleStart();
      case PlayerLoaded(player) => error := HandleLoaded(player);
      case PlayerLeft(player, reason, next) => error := HandleLeft(player, reason, next);
      case GameFrame(sequence, frame) => error := HandleFrame(sequence, frame);
      case GameEnded(_) => error := HandleEnd();
    }

    // What the session sends.

    /** However often the map is verified, the server hears it once. */
    method MarkReady()
      modifies this`readySent, this`outbox
      ensures readySent
      ensures outbox == if old(readySent) then old(outbox) else old(outbox) + [Ready]
      ensures old(Counted()) ==> Counted()
    {
      SentMore(outbox, Ready);
      if readySent {
        return;
      }
      outbox := outbox + [Ready];
      readySent := true;
    }

    method MarkLoaded()
      modifies this`loadedSent, this`outbox
      ensures loadedSent
      ensures outbox == if old(loadedSent) then old(outbox) else old(outbox) + [Loaded]
      ensures old(Counted()) ==> Counted()
    {
      SentMore(outbox, Loaded);
      if loadedSent {
        return;
      }
      outbox := outbox + [Loaded];
      loadedSent := true;
    }

    /** Frames are numbered 1, 2, 3, ...; a frame that cannot be tunnelled uses no number. */
    method SendGameFrame(frame: Frame) returns (sent: bool)
      modifies this`lastSent, this`outbox
      ensures sent <==> old(lastSent) < U64_MAX && EncodedLength(frame) <= MAX_TUNNELED_FRAME_BYTES
      ensures lastSent == if sent then old(lastSent) + 1 else old(lastSent)
      ensures outbox == if sent then old(outbox) + [Tunnelled(Message(lastSent, ToBytes(frame)))] else old(outbox)
      ensures old(Counted()) ==> Counted()
    {
      if lastSent == U64_MAX {
        return false;
      }
      var sequence := lastSent + 1;
      var message := NewMessage(sequence, ToBytes(frame));
      if message.Err? {
        return false;
      }
      SentMore(outbox, Tunnelled(message.value));
      outbox := outbox + [Tunnelled(message.value)];
      lastSent := sequence;
      return true;
    }
  }

  datatype ToServer = Ready | Loaded | Tunnelled(message: Message)

  /** The numbers of the frames sent, in order. */
  function SentNumbers(outbox: seq<ToServer>): (numbers: seq<u64>)
  {
    if outbox == [] then []
    else
      var last := outbox[|outbox| - 1];
      SentNumbers(outbox[..|outbox| - 1]) + if last.Tunnelled? then [last.message.sequence] else []
  }

  lemma SentMore(outbox: seq<ToServer>, more: ToServer)
    ensures SentNumbers(outbox + [more]) ==
              SentNumbers(outbox) + if more.Tunnelled? then [more.message.sequence] else []
  {
    assert (outbox + [more])[..|outbox|] == outbox;
  }

  /** The numbers 1, 2, 3, ... */
  predicate InSequence(numbers: seq<u64>)
  {
    forall i | 0 <= i < |numbers| :: numbers[i] == i + 1
  }

  lemma NextInfo(players: seq<LobbyPlayer>, i: nat, id: u8, wires: seq<Wire>)
    requires i < |players|
    ensures var here := if players[i].playerId != id then [PlayerInfo(players[i].playerId, players[i].name)] else [];
            wires + Infos(players[i..], id) == (wires + here) + Infos(players[i + 1..], id)
            && wires + [] == wires
  {
    assert players[i..][1..] == players[i + 1..];
  }

  lemma NextSkins(players: seq<LobbyPlayer>, i: nat, id: u8, wires: seq<Wire>)
    requires i < |players|
    ensures var here := if players[i].playerId != id then [PlayerSkins(players[i].playerId)] else [];
            wires + SkinsOf(players[i..], id) == (wires + here) + SkinsOf(players[i + 1..], id)
            && wires + [] == wires
  {
    assert players[i..][1..] == players[i + 1..];
  }

  lemma NextProfile(players: seq<LobbyPlayer>, i: nat, wires: seq<Wire>)
    requires i < |players|
    ensures wires + Profiles(players[i..])
            == (wires + [PlayerProfile(players[i].playerId, players[i].name)]) + Profiles(players[i + 1..])
  {
    assert players[i..][1..] == players[i + 1..];
  }

  lemma NextDeparture(players: seq<LobbyPlayer>, i: nat, next: Roster, id: u8, wires: seq<Wire>)
    requires i < |players|
    ensures var p := players[i];
            var here := if p.playerId != id && Player(next, p.playerId) != Some(p)
                        then [PlayerLeave(p.playerId, LEAVE_LOBBY_CODE)] else [];
            wires + Departures(players[i..], next, id) == (wires + here) + Departures(players[i + 1..], next, id)
            && wires + [] == wires
  {
    assert players[i..][1..] == players[i + 1..];
  }

  lemma NextArrival(players: seq<LobbyPlayer>, i: nat, previous: Roster, id: u8, wires: seq<Wire>)
    requires i < |players|
    ensures var p := players[i];
            var here := if p.playerId != id && Player(previous, p.playerId) != Some(p) then Introduction(p) else [];
            wires + Arrivals(players[i..], previous, id) == (wires + here) + Arrivals(players[i + 1..], previous, id)
            && wires + [] == wires
  {
    assert players[i..][1..] == players[i + 1..];
  }
}
