/**
 What an agent does with each update its server forwards: which it rejects, how its view of the lobby
 changes, and what it writes to Warcraft. `AgentSession` implements these functions.
 */
module AgentModel {
  import opened Bytes
  import opened Text
  import opened Frames
  import opened Actions
  import opened GameTunnel
  import opened Rosters
  import opened RoomModel
  import opened Slots

  const LOBBY_COUNTDOWN_SECONDS: u8 := 60
  const LOBBY_COUNTDOWN_STEP_SECONDS: u8 := 10
  const LEAVE_LOBBY_CODE := 13

  datatype ChatText = Spoken(message: string) | SecondsLeft(seconds: u8) | LobbyCancelled

  /** Frames written to Warcraft, by what they say; a forwarded frame comes with the timeslot it decodes to. */
  datatype Wire =
    | SlotJoin(info: SlotInfo, id: u8)
    | SlotTable(info: SlotInfo)
    | MapCheck
    | PlayerInfo(id: u8, name: string)
    | PlayerSkins(id: u8)
    | PlayerProfile(id: u8, name: string)
    | PlayerLeave(id: u8, code: nat)
    | ChatFromHost(from: u8, recipients: seq<u8>, text: ChatText)
    | CountdownStart
    | CountdownEnd
    | LoadedOthers(id: u8)
    | Timeslots(frame: Frame, slot: Timeslot)
    | GameOver(id: u8)

  datatype AgentError =
    | RosterRejected
    | LocalPlayerRemoved
    | CountdownRejected
    | ChatSenderRejected
    | ChatMessageRejected
    | ChatSenderUnknown
    | ChatNotEncodable
    | LoadedPlayerRejected
    | LoadedBeforeStart
    | LoadedPlayerUnknown
    | DepartedPlayerRejected
    | DepartureInconsistent
    | LeftBeforeStart
    | DepartedPlayerUnknown
    | DepartureStale
    | TunnelRejected
    | SequenceExhausted
    | SequenceMismatch(expected: u64, actual: u64)
    | TimeslotRejected
    | FrameBeforeStart
    | EndBeforeStart

  /** The variables of a lobby session; `finished` once the game has been reported over. */
  datatype Agent = Agent(id: u8, roster: Roster, started: bool, loaded: set<u8>, received: u64, finished: bool)

  datatype Reaction = Reaction(agent: Agent, wires: seq<Wire>)

  type Answer = Result<Reaction, AgentError>

  function LeaveCode(reason: LeaveReason): (code: nat)
  {
    match reason
    case Disconnect => 0x01
    case Lost => 0x07
    case LostBuildings => 0x08
    case Won => 0x09
    case Draw => 0x0A
    case Observer => 0x0B
    case Lobby => 0x0D
  }

  predicate ValidCountdown(seconds: u8)
  {
    seconds != 0 && seconds <= LOBBY_COUNTDOWN_SECONDS && seconds % LOBBY_COUNTDOWN_STEP_SECONDS == 0
  }

  predicate HumanId(id: u8)
  {
    1 <= id <= DOTA_HUMAN_SLOTS
  }

  // Chat.

  function Ids(players: seq<LobbyPlayer>): (ids: seq<u8>)
    ensures |ids| == |players|
    ensures forall i | 0 <= i < |players| :: ids[i] == players[i].playerId
  {
    if players == [] then [] else [players[0].playerId] + Ids(players[1..])
  }

  predicate ValidRecipients(ids: seq<u8>)
  {
    && ids != [] && |ids| <= 255 && 0 !in ids
    && forall i, j | 0 <= i < j < |ids| :: ids[i] != ids[j]
  }

  function Speak(a: Agent, from: u8, text: ChatText): (r: Answer)
  {
    var recipients := Ids(a.roster.players);
    if from == 0 || !ValidRecipients(recipients) || (text.Spoken? && !ValidChatMessage(text.message))
    then Err(ChatNotEncodable)
    else Ok(Reaction(a, [ChatFromHost(from, recipients, text)]))
  }

  // Roster updates.

  /** Leave frames for remote players whose entry is not the same in the next roster. */
  function Departures(players: seq<LobbyPlayer>, next: Roster, id: u8): (wires: seq<Wire>)
  {
    if players == [] then []
    else
      (if players[0].playerId != id && Player(next, players[0].playerId) != Some(players[0])
       then [PlayerLeave(players[0].playerId, LEAVE_LOBBY_CODE)] else [])
      + Departures(players[1..], next, id)
  }

  function Introduction(p: LobbyPlayer): (wires: seq<Wire>)
  {
    [PlayerInfo(p.playerId, p.name), PlayerSkins(p.playerId), PlayerProfile(p.playerId, p.name)]
  }

  /** Introductions of remote players whose entry was not the same in the previous roster. */
  function Arrivals(players: seq<LobbyPlayer>, previous: Roster, id: u8): (wires: seq<Wire>)
  {
    if players == [] then []
    else
      (if players[0].playerId != id && Player(previous, players[0].playerId) != Some(players[0])
       then Introduction(players[0]) else [])
      + Arrivals(players[1..], previous, id)
  }

  function Table(lobby: Lobby, roster: Roster): (info: SlotInfo)
  {
    SlotInfo(SlotsFor(lobby, roster, 11), lobby.randomSeed, 3, DOTA_TOTAL_SLOTS)
  }

  function RosterWires(lobby: Lobby, previous: Roster, next: Roster, id: u8): (wires: seq<Wire>)
  {
    Departures(previous.players, next, id) + Arrivals(next.players, previous, id) + [SlotTable(Table(lobby, next))]
  }

  function OnRoster(lobby: Lobby, a: Agent, next: Roster): (r: Answer)
  {
    if !ValidRoster(next, DOTA_HUMAN_SLOTS) then Err(RosterRejected)
    else if next.revision <= a.roster.revision then Ok(Reaction(a, []))
    else if Player(next, a.id).None? then Err(LocalPlayerRemoved)
    else Ok(Reaction(a.(roster := next), RosterWires(lobby, a.roster, next, a.id)))
  }

  // The other updates.

  function OnCountdown(lobby: Lobby, a: Agent, seconds: u8): (r: Answer)
  {
    if !ValidCountdown(seconds) then Err(CountdownRejected)
    else Speak(a, lobby.host.playerId, SecondsLeft(seconds))
  }

  function OnChat(a: Agent, from: u8, message: string): (r: Answer)
  {
    if !HumanId(from) then Err(ChatSenderRejected)
    else if !ValidChatMessage(message) then Err(ChatMessageRejected)
    else if Player(a.roster, from).None? then Err(ChatSenderUnknown)
    else Speak(a, from, Spoken(message))
  }

  function OnStart(lobby: Lobby, a: Agent): (r: Answer)
  {
    if a.started then Ok(Reaction(a, []))
    else Ok(Reaction(a.(started := true), [CountdownStart, CountdownEnd, LoadedOthers(lobby.host.playerId)]))
  }

  function OnLoaded(a: Agent, player: u8): (r: Answer)
  {
    if !HumanId(player) then Err(LoadedPlayerRejected)
    else if !a.started then Err(LoadedBeforeStart)
    else if Player(a.roster, player).None? then Err(LoadedPlayerUnknown)
    else if player in a.loaded then Ok(Reaction(a, []))
    else Ok(Reaction(a.(loaded := a.loaded + {player}), [LoadedOthers(player)]))
  }

  function OnLeft(a: Agent, player: u8, reason: LeaveReason, next: Roster): (r: Answer)
  {
    if !HumanId(player) || player == a.id then Err(DepartedPlayerRejected)
    else if !ValidRoster(next, DOTA_HUMAN_SLOTS) then Err(RosterRejected)
    else if Player(next, player).Some? || Player(next, a.id).None? then Err(DepartureInconsistent)
    else if !a.started then Err(LeftBeforeStart)
    else if Player(a.roster, player).None? then Err(DepartedPlayerUnknown)
    else if next.revision <= a.roster.revision then Err(DepartureStale)
    else Ok(Reaction(a.(loaded := a.loaded - {player}, roster := next), [PlayerLeave(player, LeaveCode(reason))]))
  }

  function OnFrame(crc: Crc, a: Agent, sequence: u64, bytes: seq<u8>): (r: Answer)
  {
    var delivered := Deliver(FromServer, sequence, bytes);
    if delivered.Err? then Err(TunnelRejected)
    else if a.received == U64_MAX then Err(SequenceExhausted)
    else if delivered.value.0 != a.received + 1 then Err(SequenceMismatch(a.received + 1, delivered.value.0))
    else
      var (received, frame) := delivered.value;
      var slot := DecodeTimeslot(crc, frame);
      if slot.Err? then Err(TimeslotRejected)
      else if !a.started then Err(FrameBeforeStart)
      else Ok(Reaction(a.(received := received), [Timeslots(frame, slot.value)]))
  }

  function OnEnd(lobby: Lobby, a: Agent): (r: Answer)
  {
    if !a.started then Err(EndBeforeStart)
    else Ok(Reaction(a.(finished := true), [GameOver(lobby.host.playerId)]))
  }

  /** The reaction to one forwarded update. */
  function On(lobby: Lobby, crc: Crc, a: Agent, u: Update): (r: Answer)
  {
    match u
    case RosterUpdate(roster) => OnRoster(lobby, a, roster)
    case CountdownUpdate(seconds) => OnCountdown(lobby, a, seconds)
    case CountdownCancelled => Speak(a, lobby.host.playerId, LobbyCancelled)
    case Chat(from, message) => OnChat(a, from, message)
    case Start => OnStart(lobby, a)
    case PlayerLoaded(player) => OnLoaded(a, player)
    case PlayerLeft(player, reason, roster) => OnLeft(a, player, reason, roster)
    case GameFrame(sequence, frame) => OnFrame(crc, a, sequence, frame)
    case GameEnded(_) => OnEnd(lobby, a)
  }

  // Warcraft's side.

  /** Warcraft's own player id, its table of other players, and the slots it was last shown. */
  datatype Warcraft = Warcraft(self: u8, others: map<u8, string>, slots: seq<SlotData>)

  predicate Recognizes(wc: Warcraft, id: u8)
  {
    id == wc.self || id in wc.others
  }

  /**
   Warcraft tolerates no introduction of a known player and no mention of an unknown one: not as the sender or
   recipient of chat, not as having loaded or ended the game, not as the author of an action in a timeslot.
   */
  function Show(wc: Warcraft, wire: Wire): (r: Option<Warcraft>)
  {
    match wire
    case SlotJoin(info, id) =>
      if id == wc.self && Assigned(info.slots, id) then Some(wc.(slots := info.slots)) else None
    case SlotTable(info) => Some(wc.(slots := info.slots))
    case PlayerInfo(id, name) =>
      if Recognizes(wc, id) then None else Some(wc.(others := wc.others[id := name]))
    case PlayerSkins(id) => if id in wc.others then Some(wc) else None
    case PlayerProfile(id, name) =>
      if id == wc.self || (id in wc.others && wc.others[id] == name) then Some(wc) else None
    case PlayerLeave(id, _) => if id in wc.others then Some(wc.(others := wc.others - {id})) else None
    case ChatFromHost(from, recipients, _) =>
      if Recognizes(wc, from) && forall i | 0 <= i < |recipients| :: Recognizes(wc, recipients[i])
      then Some(wc) else None
    case LoadedOthers(id) => if Recognizes(wc, id) then Some(wc) else None
    case Timeslots(_, slot) =>
      if forall i | 0 <= i < |slot.actions| :: Recognizes(wc, slot.actions[i].player) then Some(wc) else None
    case GameOver(id) => if Recognizes(wc, id) then Some(wc) else None
    case MapCheck => Some(wc)
    case CountdownStart => Some(wc)
    case CountdownEnd => Some(wc)
  }

  function ShowAll(wc: Warcraft, wires: seq<Wire>): (r: Option<Warcraft>)
    decreases |wires|
  {
    if wires == [] then Some(wc)
    else if Show(wc, wires[0]).None? then None
    else ShowAll(Show(wc, wires[0]).value, wires[1..])
  }

  lemma {:induction false} ShowAppend(wc: Warcraft, a: seq<Wire>, b: seq<Wire>)
    ensures ShowAll(wc, a + b) == if ShowAll(wc, a).Some? then ShowAll(ShowAll(wc, a).value, b) else None
    decreases |a|
  {
    hide Show;
    if a == [] {
      assert a + b == b;
    } else {
      assert (a + b)[1..] == a[1..] + b;
      if Show(wc, a[0]).Some? {
        ShowAppend(Show(wc, a[0]).value, a[1..], b);
      }
    }
  }

  /** A session together with the Warcraft it feeds. */
  datatype Client = Client(agent: Agent, warcraft: Warcraft)

  /**
   One update taken in by agent and Warcraft alike; nothing if either rejects it. A finished session takes no
   more.
   */
  function Absorb(lobby: Lobby, crc: Crc, client: Client, u: Update): (r: Option<Client>)
  {
    if client.agent.finished then Some(client)
    else
      var answer := On(lobby, crc, client.agent, u);
      if answer.Err? then None
      else
        var shown := ShowAll(client.warcraft, answer.value.wires);
        if shown.None? then None else Some(Client(answer.value.agent, shown.value))
  }

  function AbsorbAll(lobby: Lobby, crc: Crc, client: Client, updates: seq<Update>): (r: Option<Client>)
    decreases |updates|
  {
    if updates == [] then Some(client)
    else if Absorb(lobby, crc, client, updates[0]).None? then None
    else AbsorbAll(lobby, crc, Absorb(lobby, crc, client, updates[0]).value, updates[1..])
  }

  lemma {:induction false} AbsorbAppend(lobby: Lobby, crc: Crc, client: Client, a: seq<Update>, b: seq<Update>)
    ensures AbsorbAll(lobby, crc, client, a + b) ==
              if AbsorbAll(lobby, crc, client, a).Some?
              then AbsorbAll(lobby, crc, AbsorbAll(lobby, crc, client, a).value, b)
              else None
    decreases |a|
  {
    hide Absorb;
    if a == [] {
      assert a + b == b;
    } else {
      assert (a + b)[1..] == a[1..] + b;
      if Absorb(lobby, crc, client, a[0]).Some? {
        AbsorbAppend(lobby, crc, Absorb(lobby, crc, client, a[0]).value, a[1..], b);
      }
    }
  }

  // The beginning of a session.

  /** The handshake: host first, then the other players; profiles go out for everybody. */
  function InitialWires(lobby: Lobby, id: u8, roster: Roster): (wires: seq<Wire>)
  {
    [SlotJoin(Table(lobby, roster), id), SlotTable(Table(lobby, roster))]
    + [PlayerInfo(lobby.host.playerId, lobby.host.name)]
    + Infos(roster.players, id)
    + [PlayerSkins(lobby.host.playerId)] + SkinsOf(roster.players, id)
    + [PlayerProfile(lobby.host.playerId, lobby.host.name)] + Profiles(roster.players)
    + [MapCheck]
  }

  function Infos(players: seq<LobbyPlayer>, id: u8): (wires: seq<Wire>)
  {
    if players == [] then []
    else
      (if players[0].playerId != id then [PlayerInfo(players[0].playerId, players[0].name)] else [])
      + Infos(players[1..], id)
  }

  function SkinsOf(players: seq<LobbyPlayer>, id: u8): (wires: seq<Wire>)
  {
    if players == [] then []
    else
      (if players[0].playerId != id then [PlayerSkins(players[0].playerId)] else [])
      + SkinsOf(players[1..], id)
  }

  function Profiles(players: seq<LobbyPlayer>): (wires: seq<Wire>)
  {
    if players == [] then []
    else [PlayerProfile(players[0].playerId, players[0].name)] + Profiles(players[1..])
  }

  /** Connecting checks the roster it is welcomed with. */
  predicate Accepts(id: u8, name: string, roster: Roster)
  {
    && ValidRoster(roster, DOTA_HUMAN_SLOTS)
    && Player(roster, id).Some? && Player(roster, id).value.name == name
  }

  function Connected(id: u8, roster: Roster): (a: Agent)
  {
    Agent(id, roster, false, {}, 0, false)
  }
}
