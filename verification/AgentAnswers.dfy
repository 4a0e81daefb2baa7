/**
 What an agent makes of every update: the complaint with which it rejects it, if any, and otherwise what Warcraft
 is shown and what the agent then knows.
 */
module AgentAnswers {
  import opened Bytes
  import opened Text
  import opened Frames
  import opened Actions
  import opened GameTunnel
  import opened Rosters
  import opened RoomModel
  import opened Slots
  import opened AgentModel

  /** What a player sees or hears, apart from the table of players and slots. */
  datatype Scene =
    | Line(from: u8, text: ChatText)
    | CountdownShown
    | CountdownHidden
    | LoadedShown(id: u8)
    | Turn(bytes: seq<u8>)
    | LeftShown(id: u8, code: nat)
    | OverShown(id: u8)

  /** The scenes in the frames written; a leave with the code of the lobby belongs to the table of players. */
  function Shown(wires: seq<Wire>): (scenes: seq<Scene>)
  {
    if wires == [] then []
    else
      (match wires[0]
       case ChatFromHost(from, _, text) => [Line(from, text)]
       case CountdownStart => [CountdownShown]
       case CountdownEnd => [CountdownHidden]
       case LoadedOthers(id) => [LoadedShown(id)]
       case Timeslots(frame, _) => [Turn(ToBytes(frame))]
       case PlayerLeave(id, code) => if code == 13 then [] else [LeftShown(id, code)]
       case GameOver(id) => [OverShown(id)]
       case _ => [])
      + Shown(wires[1..])
  }

  lemma {:induction false} ShownAppend(a: seq<Wire>, b: seq<Wire>)
    ensures Shown(a + b) == Shown(a) + Shown(b)
    decreases |a|
  {
    if a == [] {
      assert a + b == b;
    } else {
      assert (a + b)[1..] == a[1..] + b;
      ShownAppend(a[1..], b);
    }
  }

  /** The scenes an update calls for; the host has the eleventh id. */
  function Script(u: Update): (scenes: seq<Scene>)
  {
    match u
    case RosterUpdate(_) => []
    case CountdownUpdate(seconds) => [Line(11, SecondsLeft(seconds))]
    case CountdownCancelled => [Line(11, LobbyCancelled)]
    case Chat(from, message) => [Line(from, Spoken(message))]
    case Start => [CountdownShown, CountdownHidden, LoadedShown(11)]
    case PlayerLoaded(player) => [LoadedShown(player)]
    case PlayerLeft(player, reason, _) =>
      (match reason
       case Disconnect => [LeftShown(player, 1)]
       case Lost => [LeftShown(player, 7)]
       case LostBuildings => [LeftShown(player, 8)]
       case Won => [LeftShown(player, 9)]
       case Draw => [LeftShown(player, 10)]
       case Observer => [LeftShown(player, 11)]
       case Lobby => [])
    case GameFrame(_, frame) => [Turn(frame)]
    case GameEnded(_) => [OverShown(11)]
  }

  /** Everything an agent may complain about, in the order it is looked at. */
  function Complaint(crc: Crc, a: Agent, u: Update): (e: Option<AgentError>)
  {
    match u
    case RosterUpdate(next) =>
      if !ValidRoster(next, 10) then Some(RosterRejected)
      else if next.revision > a.roster.revision && Player(next, a.id).None? then Some(LocalPlayerRemoved)
      else None
    case CountdownUpdate(seconds) => if seconds in {10, 20, 30, 40, 50, 60} then None else Some(CountdownRejected)
    case CountdownCancelled => None
    case Chat(from, message) =>
      if from < 1 || from > 10 then Some(ChatSenderRejected)
      else if !ValidChatMessage(message) then Some(ChatMessageRejected)
      else if Player(a.roster, from).None? then Some(ChatSenderUnknown)
      else None
    case Start => None
    case PlayerLoaded(player) =>
      if player < 1 || player > 10 then Some(LoadedPlayerRejected)
      else if !a.started then Some(LoadedBeforeStart)
      else if Player(a.roster, player).None? then Some(LoadedPlayerUnknown)
      else None
    case PlayerLeft(player, _, next) =>
      if player < 1 || player > 10 || player == a.id then Some(DepartedPlayerRejected)
      else if !ValidRoster(next, 10) then Some(RosterRejected)
      else if Player(next, player).Some? || Player(next, a.id).None? then Some(DepartureInconsistent)
      else if !a.started then Some(LeftBeforeStart)
      else if Player(a.roster, player).None? then Some(DepartedPlayerUnknown)
      else if next.revision <= a.roster.revision then Some(DepartureStale)
      else None
    case GameFrame(sequence, bytes) =>
      var frame := DecodeExact(bytes, 1460);
      if sequence == 0 || frame.Err? then Some(TunnelRejected)
      else if a.received == 0xFFFF_FFFF_FFFF_FFFF then Some(SequenceExhausted)
      else if sequence != a.received + 1 then Some(SequenceMismatch(a.received + 1, sequence))
      else if DecodeTimeslot(crc, frame.value).Err? then Some(TimeslotRejected)
      else if !a.started then Some(FrameBeforeStart)
      else None
    case GameEnded(_) => if a.started then None else Some(EndBeforeStart)
  }

  /** The update tells the agent nothing it has not been told. */
  predicate Stale(a: Agent, u: Update)
  {
    match u
    case RosterUpdate(next) => next.revision <= a.roster.revision
    case Start => a.started
    case PlayerLoaded(player) => player in a.loaded
    case _ => false
  }

  /** What the agent knows afterwards. */
  function Informed(a: Agent, u: Update): (a': Agent)
  {
    match u
    case RosterUpdate(next) => a.(roster := next)
    case Start => a.(started := true)
    case PlayerLoaded(player) => a.(loaded := a.loaded + {player})
    case PlayerLeft(player, _, next) => a.(loaded := a.loaded - {player}, roster := next)
    case GameFrame(sequence, _) => a.(received := sequence)
    case GameEnded(_) => a.(finished := true)
    case _ => a
  }

  /** Every chat frame goes to everybody on the roster, once. */
  predicate Addressed(roster: Roster, wires: seq<Wire>)
  {
    forall w | w in wires && w.ChatFromHost? ::
      && (forall q: u8 :: q in w.recipients <==> Player(roster, q).Some?)
      && forall i, j | 0 <= i < j < |w.recipients| :: w.recipients[i] != w.recipients[j]
  }

  /** Nothing but the table of players and slots. */
  predicate Housekeeping(wires: seq<Wire>)
  {
    forall i | 0 <= i < |wires| ::
      wires[i].PlayerInfo? || wires[i].PlayerSkins? || wires[i].PlayerProfile? || wires[i].SlotTable?
      || (wires[i].PlayerLeave? && wires[i].code == 13)
  }

  lemma {:induction false} HousekeepingHasNoScenes(wires: seq<Wire>)
    requires Housekeeping(wires)
    ensures Shown(wires) == []
  {
    if wires != [] {
      assert forall i | 0 <= i < |wires[1..]| :: wires[1..][i] == wires[i + 1];
      HousekeepingHasNoScenes(wires[1..]);
    }
  }

  lemma {:induction false} DeparturesAreHousekeeping(players: seq<LobbyPlayer>, next: Roster, self: u8)
    ensures Housekeeping(Departures(players, next, self))
    decreases |players|
  {
    if players != [] {
      DeparturesAreHousekeeping(players[1..], next, self);
    }
  }

  lemma {:induction false} ArrivalsAreHousekeeping(players: seq<LobbyPlayer>, previous: Roster, self: u8)
    ensures Housekeeping(Arrivals(players, previous, self))
    decreases |players|
  {
    if players != [] {
      ArrivalsAreHousekeeping(players[1..], previous, self);
    }
  }

  lemma RosterWithoutScenes(lobby: Lobby, previous: Roster, next: Roster, id: u8)
    ensures var wires := RosterWires(lobby, previous, next, id); Shown(wires) == [] && Housekeeping(wires)
  {
    hide Departures, Arrivals, Player, Shown;
    DeparturesAreHousekeeping(previous.players, next, id);
    ArrivalsAreHousekeeping(next.players, previous, id);
    HousekeepingHasNoScenes(RosterWires(lobby, previous, next, id));
  }

  lemma IdsAreTheRoster(roster: Roster)
    requires ValidRoster(roster, 10)
    ensures forall q: u8 :: q in Ids(roster.players) <==> Player(roster, q).Some?
    ensures forall i, j | 0 <= i < j < |roster.players| :: Ids(roster.players)[i] != Ids(roster.players)[j]
  {
    hide ValidPlayerName, DistinctSlots;
    forall q: u8 ensures q in Ids(roster.players) <==> Player(roster, q).Some? {
      if q in Ids(roster.players) {
        var i :| 0 <= i < |roster.players| && Ids(roster.players)[i] == q;
        assert roster.players[i] in roster.players;
      }
      if Player(roster, q).Some? {
        var i :| 0 <= i < |roster.players| && roster.players[i] == Player(roster, q).value;
        assert Ids(roster.players)[i] == q;
      }
    }
  }

  lemma OneScene(wire: Wire)
    ensures Shown([wire]) ==
              match wire
              case ChatFromHost(from, _, text) => [Line(from, text)]
              case CountdownStart => [CountdownShown]
              case CountdownEnd => [CountdownHidden]
              case LoadedOthers(id) => [LoadedShown(id)]
              case Timeslots(frame, _) => [Turn(ToBytes(frame))]
              case PlayerLeave(id, code) => if code == 13 then [] else [LeftShown(id, code)]
              case GameOver(id) => [OverShown(id)]
              case _ => []
  {
    assert [wire][1..] == [];
  }

  lemma StartScenes(host: u8)
    ensures Shown([CountdownStart, CountdownEnd, LoadedOthers(host)])
         == [CountdownShown, CountdownHidden, LoadedShown(host)]
  {
    hide Shown;
    OneScene(CountdownStart);
    OneScene(CountdownEnd);
    OneScene(LoadedOthers(host));
    ShownAppend([CountdownStart], [CountdownEnd]);
    ShownAppend([CountdownStart] + [CountdownEnd], [LoadedOthers(host)]);
    assert [CountdownStart] + [CountdownEnd] + [LoadedOthers(host)]
        == [CountdownStart, CountdownEnd, LoadedOthers(host)];
  }

  /** An agent that keeps what a session keeps: a valid roster with its own player on it. */
  predicate Settled(a: Agent)
  {
    ValidRoster(a.roster, 10) && Player(a.roster, a.id).Some?
  }

  predicate AnsweredRightly(crc: Crc, a: Agent, u: Update, r: Answer)
  {
    var complaint := Complaint(crc, a, u);
    if complaint.Some? then r == Err(complaint.value)
    else
      && r.Ok? && Addressed(a.roster, r.value.wires)
      && r.value.agent == (if Stale(a, u) then a else Informed(a, u))
      && Shown(r.value.wires) == if Stale(a, u) then [] else Script(u)
  }

  lemma SpeechIsAnswered(a: Agent, from: u8, text: ChatText)
    requires Settled(a) && 1 <= from && (text.Spoken? ==> ValidChatMessage(text.message))
    ensures var r := Speak(a, from, text);
            && r.Ok? && r.value.agent == a && Addressed(a.roster, r.value.wires)
            && Shown(r.value.wires) == [Line(from, text)]
  {
    hide ValidRoster, Shown, ValidChatMessage, Find;
    IdsAreTheRoster(a.roster);
    RosterIsShort(a.roster, a.id);
    OneScene(ChatFromHost(from, Ids(a.roster.players), text));
  }

  lemma RosterIsShort(roster: Roster, id: u8)
    requires ValidRoster(roster, 10) && Player(roster, id).Some?
    ensures 1 <= |roster.players| <= 10
    ensures 0 !in Ids(roster.players)
  {
    hide ValidPlayerName, DistinctSlots;
    assert forall i | 0 <= i < |roster.players| :: ValidEntry(roster.players[i], 10);
  }

  /**
   Every update is rejected for exactly the complaint it deserves, or taken in: Warcraft is then shown exactly what
   the update calls for, unless it is stale, and chat goes to everybody on the roster.
   */
  lemma UpdateIsAnswered(lobby: Lobby, crc: Crc, a: Agent, u: Update)
    requires DotaLobby(lobby) && Settled(a)
    ensures AnsweredRightly(crc, a, u, On(lobby, crc, a, u))
  {
    hide ValidRoster, Find, Deliver, DecodeTimeslot, DecodeExact, Shown, Speak, ValidChatMessage, RosterWires, Ids;
    match u
    case RosterUpdate(next) => RosterWithoutScenes(lobby, a.roster, next, a.id); NothingShown();
    case CountdownUpdate(seconds) => SpeechIsAnswered(a, 11, SecondsLeft(seconds));
    case CountdownCancelled => SpeechIsAnswered(a, 11, LobbyCancelled);
    case Chat(from, message) =>
      if from >= 1 && ValidChatMessage(message) {
        SpeechIsAnswered(a, from, Spoken(message));
      }
    case Start => StartScenes(11); NothingShown();
    case PlayerLoaded(player) => OneScene(LoadedOthers(player)); NothingShown();
    case PlayerLeft(player, reason, _) => OneScene(PlayerLeave(player, LeaveCode(reason)));
    case GameFrame(sequence, bytes) => FrameIsAnswered(crc, a, sequence, bytes);
    case GameEnded(_) => OneScene(GameOver(11));
  }

  lemma NothingShown()
    ensures Shown([]) == []
  {
  }

  /** Only intact frames under a positive number arrive, and as they were sent. */
  lemma FrameIsAnswered(crc: Crc, a: Agent, sequence: u64, bytes: seq<u8>)
    ensures AnsweredRightly(crc, a, GameFrame(sequence, bytes), OnFrame(crc, a, sequence, bytes))
  {
    hide DecodeTimeslot, DecodeExact, Shown, Deliver;
    FrameArrives(sequence, bytes);
    var frame := DecodeExact(bytes, 1460);
    if frame.Ok? {
      FrameCanonical(bytes, 1460);
      if DecodeTimeslot(crc, frame.value).Ok? {
        OneScene(Timeslots(frame.value, DecodeTimeslot(crc, frame.value).value));
      }
    }
  }

  lemma FrameArrives(sequence: u64, bytes: seq<u8>)
    ensures var frame := DecodeExact(bytes, 1460);
            var r := Deliver(FromServer, sequence, bytes);
            (r.Ok? <==> sequence != 0 && frame.Ok?) && (r.Ok? ==> r.value == (sequence, frame.value))
  {
    hide DecodeExact, Encode, Decode;
    if sequence != 0 && 1 <= |bytes| <= 1460 {
      TunnelRoundTrip(FromServer, Message(sequence, bytes));
    } else if |bytes| == 0 || |bytes| > 1460 {
      LengthCounts(bytes);
    }
  }

  lemma LengthCounts(bytes: seq<u8>)
    requires |bytes| == 0 || |bytes| > 1460
    ensures DecodeExact(bytes, 1460).Err?
  {
  }
}
