/** The slot table Warcraft is shown: the fixed DotA topology with the roster and the virtual host projected onto it. */
module Slots {
  import opened Bytes
  import opened Text
  import opened Frames
  import opened Rosters

  const SLOT_INFO_JOIN: u8 := 0x04
  const MAX_SLOT_COUNT := 24
  const SLOT_DATA_LENGTH := 9
  const SLOT_INFO_FIXED_LENGTH := 7
  const RACE_HUMAN: u8 := 0x01
  const RACE_NIGHT_ELF: u8 := 0x04
  const RACE_UNDEAD: u8 := 0x08
  const DOTA_MAP_PATH := "Maps\\Download\\DotA_v6_89Q.w3x"
  const DOTA_TOTAL_SLOTS: u8 := 11
  const DOTA_HUMAN_SLOTS: u8 := 10

  datatype SlotStatus = Open | Closed | Occupied

  datatype SlotData = SlotData(playerId: u8, download: u8, status: SlotStatus, team: u8, color: u8, race: u8)

  datatype SlotInfo = SlotInfo(slots: seq<SlotData>, randomSeed: u32, layout: u8, playerSlots: u8)

  datatype SlotError =
    | EmptySlots
    | TooManySlots(actual: nat)
    | TooManyPlayerSlots(actual: nat, slotCount: nat)
    | InvalidAssignedPlayerId(playerId: u8)
    | NoTopology
    | WrongTopology(totalSlots: u8)
    | InvalidRoster(cause: RosterError)

  /** What a lobby descriptor says about the map, the slots and the virtual host. */
  datatype Lobby = Lobby(mapPath: string, maximumPlayers: u8, host: LobbyPlayer, randomSeed: u32)
  {
    function HumanCapacity(): (n: int)
    {
      maximumPlayers - 1
    }
  }

  function OpenSlot(team: u8, color: u8, race: u8): (s: SlotData)
  {
    SlotData(0, 255, Open, team, color, race)
  }

  function OccupiedSlot(playerId: u8, team: u8, color: u8, race: u8): (s: SlotData)
  {
    SlotData(playerId, 100, Occupied, team, color, race)
  }

  function NewSlotInfo(slots: seq<SlotData>, randomSeed: u32, layout: u8,
                       playerSlots: u8): (r: Result<SlotInfo, SlotError>)
    ensures r.Ok? <==> 1 <= |slots| <= MAX_SLOT_COUNT && playerSlots <= |slots|
    ensures r.Ok? ==> r.value.slots == slots && r.value.playerSlots == playerSlots
  {
    if slots == [] then Err(EmptySlots)
    else if |slots| > MAX_SLOT_COUNT then Err(TooManySlots(|slots|))
    else if playerSlots > |slots| then Err(TooManyPlayerSlots(playerSlots, |slots|))
    else Ok(SlotInfo(slots, randomSeed, layout, playerSlots))
  }

  // The wire form.

  function StatusCode(status: SlotStatus): (code: u8)
  {
    match status
    case Open => 0
    case Closed => 1
    case Occupied => 2
  }

  function SlotBytes(s: SlotData): (bytes: seq<u8>)
    ensures |bytes| == SLOT_DATA_LENGTH
  {
    [s.playerId, s.download, StatusCode(s.status), 0, s.team, s.color, s.race, 1, 100]
  }

  function AllSlotBytes(slots: seq<SlotData>): (bytes: seq<u8>)
    ensures |bytes| == SLOT_DATA_LENGTH * |slots|
  {
    if slots == [] then [] else AllSlotBytes(slots[..|slots| - 1]) + SlotBytes(slots[|slots| - 1])
  }

  function Payload(info: SlotInfo): (bytes: seq<u8>)
    requires |info.slots| <= MAX_SLOT_COUNT
    ensures |bytes| == 2 + SLOT_INFO_FIXED_LENGTH + SLOT_DATA_LENGTH * |info.slots|
  {
    Le(2, SLOT_INFO_FIXED_LENGTH + SLOT_DATA_LENGTH * |info.slots|) + [|info.slots|] + AllSlotBytes(info.slots)
    + Le(4, info.randomSeed) + [info.layout, info.playerSlots]
  }

  method EncodePayload(info: SlotInfo) returns (payload: seq<u8>)
    requires |info.slots| <= MAX_SLOT_COUNT
    ensures payload == Payload(info)
  {
    payload := Le(2, SLOT_INFO_FIXED_LENGTH + SLOT_DATA_LENGTH * |info.slots|);
    payload := payload + [|info.slots|];
    ghost var head := payload;
    for i := 0 to |info.slots|
      invariant payload == head + AllSlotBytes(info.slots[..i])
    {
      var slot := info.slots[i];
      assert info.slots[..i + 1][..i] == info.slots[..i];
      payload := payload + SlotBytes(slot);
    }
    assert info.slots[..|info.slots|] == info.slots;
    payload := payload + Le(4, info.randomSeed);
    payload := payload + [info.layout];
    payload := payload + [info.playerSlots];
  }

  /** Slot `i` of a payload, read back. */
  function ReadSlot(bytes: seq<u8>): (s: Option<SlotData>)
    requires |bytes| == SLOT_DATA_LENGTH
  {
    if bytes[2] == 0 then Some(SlotData(bytes[0], bytes[1], Open, bytes[4], bytes[5], bytes[6]))
    else if bytes[2] == 1 then Some(SlotData(bytes[0], bytes[1], Closed, bytes[4], bytes[5], bytes[6]))
    else if bytes[2] == 2 then Some(SlotData(bytes[0], bytes[1], Occupied, bytes[4], bytes[5], bytes[6]))
    else None
  }

  lemma {:induction false} SlotBytesAt(slots: seq<SlotData>, i: nat)
    requires i < |slots|
    ensures AllSlotBytes(slots)[SLOT_DATA_LENGTH * i..SLOT_DATA_LENGTH * i + SLOT_DATA_LENGTH] == SlotBytes(slots[i])
    decreases |slots|
  {
    var before := slots[..|slots| - 1];
    if i < |slots| - 1 {
      SlotBytesAt(before, i);
      assert SLOT_DATA_LENGTH * i + SLOT_DATA_LENGTH <= |AllSlotBytes(before)|;
    }
  }

  lemma SlotReadable(s: SlotData)
    ensures ReadSlot(SlotBytes(s)) == Some(s)
  {
  }

  /** Every slot can be read back from its place in the payload, and the header counts them. */
  lemma PayloadIsReadable(info: SlotInfo, i: nat)
    requires |info.slots| <= MAX_SLOT_COUNT && i < |info.slots|
    ensures var bytes := Payload(info);
            var at := 3 + SLOT_DATA_LENGTH * i;
            && bytes[2] == |info.slots|
            && FromLe16(bytes[..2]) == |bytes| - 2
            && ReadSlot(bytes[at..at + SLOT_DATA_LENGTH]) == Some(info.slots[i])
            && FromLe32(bytes[|bytes| - 6..|bytes| - 2]) == info.randomSeed
            && bytes[|bytes| - 2..] == [info.layout, info.playerSlots]
  {
    hide Le, AllSlotBytes, SlotBytes, ReadSlot, FromLe16, FromLe32;
    var bytes := Payload(info);
    var all := AllSlotBytes(info.slots);
    SlotBytesAt(info.slots, i);
    SlotReadable(info.slots[i]);
    assert bytes[..2] == Le(2, SLOT_INFO_FIXED_LENGTH + SLOT_DATA_LENGTH * |info.slots|);
    Le16RoundTrip(SLOT_INFO_FIXED_LENGTH + SLOT_DATA_LENGTH * |info.slots|);
    assert bytes[3..3 + |all|] == all;
    var at := SLOT_DATA_LENGTH * i;
    assert bytes[3 + at..3 + at + SLOT_DATA_LENGTH] == all[at..at + SLOT_DATA_LENGTH];
    assert bytes[|bytes| - 6..|bytes| - 2] == Le(4, info.randomSeed);
    Le32RoundTrip(info.randomSeed);
  }

  /** The bytes of a slot that are the same for every slot: no computer, its default type, full handicap. */
  lemma SlotConstants(info: SlotInfo, i: nat)
    requires |info.slots| <= MAX_SLOT_COUNT && i < |info.slots|
    ensures var at := 3 + 9 * i;
            var bytes := Payload(info);
            at + 9 <= |bytes| && bytes[at + 3] == 0 && bytes[at + 7] == 1 && bytes[at + 8] == 100
  {
    hide Le, AllSlotBytes;
    var bytes := Payload(info);
    var all := AllSlotBytes(info.slots);
    var at := 9 * i;
    SlotBytesAt(info.slots, i);
    assert bytes[3..3 + |all|] == all;
    assert bytes[3 + at..3 + at + 9] == all[at..at + 9] == SlotBytes(info.slots[i]);
    assert bytes[3 + at..3 + at + 9][3] == 0;
    assert bytes[3 + at..3 + at + 9][7] == 1;
    assert bytes[3 + at..3 + at + 9][8] == 100;
  }

  const SOCKET_ADDRESS_LENGTH := 16

  /** The slot information opening the handshake; it fails unless the assigned player occupies a slot. */
  function JoinFrame(info: SlotInfo, playerId: u8, address: seq<u8>): (r: Result<Frame, SlotError>)
    requires |info.slots| <= MAX_SLOT_COUNT && |address| == SOCKET_ADDRESS_LENGTH
  {
    if playerId == 0 || !Assigned(info.slots, playerId) then Err(InvalidAssignedPlayerId(playerId))
    else Ok(Frame(SLOT_INFO_JOIN, Payload(info) + [playerId] + address))
  }

  predicate Assigned(slots: seq<SlotData>, playerId: u8)
  {
    exists i | 0 <= i < |slots| :: slots[i].playerId == playerId && slots[i].status == Occupied
  }

  // The DotA topology.

  function Team(index: nat): (team: u8)
  {
    if index < 5 then 0 else if index < 10 then 1 else 2
  }

  function Color(index: nat): (color: u8)
    requires index < DOTA_TOTAL_SLOTS
  {
    if index < 5 then index + 1 else index + 2
  }

  function Race(index: nat): (race: u8)
  {
    if index < 5 then RACE_NIGHT_ELF else if index < 10 then RACE_UNDEAD else RACE_HUMAN
  }

  /** The player seated at a slot index, if any. */
  function AtSlot(players: seq<LobbyPlayer>, index: nat): (p: Option<LobbyPlayer>)
    ensures p.Some? ==> p.value in players && p.value.slotIndex == index
    ensures p.None? ==> forall q | q in players :: q.slotIndex != index
  {
    if players == [] then None
    else if players[0].slotIndex == index then Some(players[0])
    else AtSlot(players[1..], index)
  }

  /** Slot `index` of the projection. */
  function SlotFor(lobby: Lobby, roster: Roster, index: nat): (s: SlotData)
    requires index < DOTA_TOTAL_SLOTS
  {
    var player := AtSlot(roster.players, index);
    if lobby.host.slotIndex == index then OccupiedSlot(lobby.host.playerId, Team(index), Color(index), Race(index))
    else if player.Some? then OccupiedSlot(player.value.playerId, Team(index), Color(index), Race(index))
    else OpenSlot(Team(index), Color(index), Race(index))
  }

  /** The first `n` slots of the projection. */
  function SlotsFor(lobby: Lobby, roster: Roster, n: nat): (slots: seq<SlotData>)
    requires n <= DOTA_TOTAL_SLOTS
    ensures |slots| == n
    ensures forall i | 0 <= i < n :: slots[i] == SlotFor(lobby, roster, i)
  {
    if n == 0 then [] else SlotsFor(lobby, roster, n - 1) + [SlotFor(lobby, roster, n - 1)]
  }

  predicate DotaLobby(lobby: Lobby)
  {
    && lobby.mapPath == DOTA_MAP_PATH
    && lobby.maximumPlayers == DOTA_TOTAL_SLOTS
    && lobby.host.playerId == DOTA_TOTAL_SLOTS
    && lobby.host.slotIndex == DOTA_HUMAN_SLOTS
    && ValidPlayerName(lobby.host.name)
  }

  method BuildSlots(lobby: Lobby, roster: Roster) returns (r: Result<SlotInfo, SlotError>)
    ensures DotaLobby(lobby) && ValidRoster(roster, DOTA_HUMAN_SLOTS) ==>
              r == Ok(SlotInfo(SlotsFor(lobby, roster, 11), lobby.randomSeed, 3, DOTA_TOTAL_SLOTS))
    ensures lobby.mapPath != DOTA_MAP_PATH <==> r == Err(NoTopology)
    ensures lobby.mapPath == DOTA_MAP_PATH ==>
              (r == Err(WrongTopology(lobby.maximumPlayers)) <==>
                 lobby.maximumPlayers != 11 || lobby.host.playerId != 11 || lobby.host.slotIndex != 10)
    ensures r.Ok? ==> ValidRoster(roster, DOTA_HUMAN_SLOTS)
  {
    if lobby.mapPath != DOTA_MAP_PATH {
      return Err(NoTopology);
    }
    if lobby.maximumPlayers != DOTA_TOTAL_SLOTS || lobby.HumanCapacity() != DOTA_HUMAN_SLOTS
       || lobby.host.playerId != DOTA_TOTAL_SLOTS || lobby.host.slotIndex != DOTA_HUMAN_SLOTS {
      return Err(WrongTopology(lobby.maximumPlayers));
    }
    var error := Validate(roster, DOTA_HUMAN_SLOTS);
    if error.Some? {
      return Err(InvalidRoster(error.value));
    }
    var slots: seq<SlotData> := [];
    for index := 0 to 11
      invariant slots == SlotsFor(lobby, roster, index)
    {
      var team, color, race := Team(index), Color(index), Race(index);
      if lobby.host.slotIndex == index {
        slots := slots + [OccupiedSlot(lobby.host.playerId, team, color, race)];
      } else {
        var player := AtSlot(roster.players, index);
        if player.Some? {
          slots := slots + [OccupiedSlot(player.value.playerId, team, color, race)];
        } else {
          slots := slots + [OpenSlot(team, color, race)];
        }
      }
    }
    r := NewSlotInfo(slots, lobby.randomSeed, 3, DOTA_TOTAL_SLOTS);
  }

  /** The slots a player id occupies. */
  predicate Occupies(slots: seq<SlotData>, id: u8, index: nat)
  {
    index < |slots| && slots[index].playerId == id && slots[index].status == Occupied
  }

  lemma AtOwnSlot(players: seq<LobbyPlayer>, i: nat)
    requires i < |players| && DistinctSlots(players, |players|)
    ensures AtSlot(players, players[i].slotIndex) == Some(players[i])
  {
    var found := AtSlot(players, players[i].slotIndex);
    assert players[i] in players;
    var j :| 0 <= j < |players| && players[j] == found.value;
  }

  /** Every member and the host occupy exactly one slot, their own; every other slot is open. */
  lemma EveryoneOnce(lobby: Lobby, roster: Roster, id: u8, index: nat)
    requires DotaLobby(lobby) && ValidRoster(roster, DOTA_HUMAN_SLOTS) && index < 11
    ensures var slots := SlotsFor(lobby, roster, 11);
            && (Occupies(slots, id, index) <==>
                  (id == lobby.host.playerId && index == lobby.host.slotIndex)
                  || (Player(roster, id).Some? && index == Player(roster, id).value.slotIndex))
            && (slots[index].status == Open <==>
                  index != lobby.host.slotIndex && forall p | p in roster.players :: p.slotIndex != index)
  {
    var players := roster.players;
    var found := Player(roster, id);
    var seated := AtSlot(players, index);
    if found.Some? {
      var i :| 0 <= i < |players| && players[i] == found.value;
      AtOwnSlot(players, i);
      assert ValidEntry(players[i], DOTA_HUMAN_SLOTS);
    }
    if seated.Some? {
      var j :| 0 <= j < |players| && players[j] == seated.value;
      assert ValidEntry(players[j], DOTA_HUMAN_SLOTS);
      if seated.value.playerId == id {
        var i :| 0 <= i < |players| && players[i] == found.value;
        assert i == j;
      }
    }
  }

  /** Team, color and race of every slot: five night elves, five undead, and the host's human. */
  function Topology(): (slots: seq<(u8, u8, u8)>)
  {
    [(0, 1, 4), (0, 2, 4), (0, 3, 4), (0, 4, 4), (0, 5, 4),
     (1, 7, 8), (1, 8, 8), (1, 9, 8), (1, 10, 8), (1, 11, 8),
     (2, 12, 1)]
  }

  /** Whoever sits where, the slots keep their team, color and race; the map counts as complete where somebody sits. */
  lemma SlotsKeepTopology(lobby: Lobby, roster: Roster, index: nat)
    requires index < 11
    ensures var slot := SlotsFor(lobby, roster, 11)[index];
            && (slot.team, slot.color, slot.race) == Topology()[index]
            && slot.status != Closed
            && (slot.status == Open ==> slot.playerId == 0 && slot.download == 255)
            && (slot.status == Occupied ==> slot.download == 100)
  {
    hide AtSlot;
    assert SlotsFor(lobby, roster, 11)[index] == SlotFor(lobby, roster, index);
  }

  /** A member of the roster can always be welcomed, and so can nobody else but the host. */
  lemma MembersAreWelcome(lobby: Lobby, roster: Roster, playerId: u8, address: seq<u8>)
    requires DotaLobby(lobby) && ValidRoster(roster, DOTA_HUMAN_SLOTS) && |address| == SOCKET_ADDRESS_LENGTH
    ensures var info := SlotInfo(SlotsFor(lobby, roster, 11), lobby.randomSeed, 3, DOTA_TOTAL_SLOTS);
            JoinFrame(info, playerId, address).Ok?
            <==> Player(roster, playerId).Some? || playerId == lobby.host.playerId
  {
    var slots := SlotsFor(lobby, roster, 11);
    if playerId == lobby.host.playerId {
      EveryoneOnce(lobby, roster, playerId, 10);
      assert Occupies(slots, playerId, 10);
    }
    if Player(roster, playerId).Some? {
      var i :| 0 <= i < |roster.players| && roster.players[i] == Player(roster, playerId).value;
      assert ValidEntry(roster.players[i], DOTA_HUMAN_SLOTS);
      EveryoneOnce(lobby, roster, playerId, roster.players[i].slotIndex);
      assert Occupies(slots, playerId, roster.players[i].slotIndex);
    }
    if Assigned(slots, playerId) {
      var i :| 0 <= i < |slots| && slots[i].playerId == playerId && slots[i].status == Occupied;
      EveryoneOnce(lobby, roster, playerId, i);
    }
  }
}
