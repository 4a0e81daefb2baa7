/** The roster: which players occupy which slots at which revision. */
module Rosters {
  import opened Bytes
  import opened Text

  const MAX_WARCRAFT_PLAYERS: u8 := 24

  datatype LobbyPlayer = LobbyPlayer(playerId: u8, slotIndex: u8, name: string)

  datatype Roster = Roster(revision: u64, players: seq<LobbyPlayer>)

  datatype RosterError =
    | InvalidRosterRevision
    | InvalidRosterPlayerCount(actual: nat, maximum: u8)
    | InvalidRosterPlayerId(playerId: u8)
    | InvalidRosterSlotIndex(slotIndex: u8)
    | InvalidPlayerName
    | DuplicateRosterPlayerId(playerId: u8)
    | DuplicateRosterSlotIndex(slotIndex: u8)

  /** The entry of `id`, if any. */
  function Player(roster: Roster, id: u8): (p: Option<LobbyPlayer>)
    ensures p.Some? ==> p.value.playerId == id
  {
    Find(roster.players, id)
  }

  function Find(players: seq<LobbyPlayer>, id: u8): (p: Option<LobbyPlayer>)
    ensures p.Some? ==> p.value.playerId == id && p.value in players
    ensures p.None? ==> forall i | 0 <= i < |players| :: players[i].playerId != id
  {
    if players == [] then None
    else if players[0].playerId == id then Some(players[0])
    else Find(players[1..], id)
  }

  predicate ValidEntry(p: LobbyPlayer, maximum: u8)
  {
    1 <= p.playerId <= maximum && p.slotIndex < maximum && ValidPlayerName(p.name)
  }

  /** No id occurs twice among the first `n` entries. */
  predicate DistinctIds(players: seq<LobbyPlayer>, n: nat)
    requires n <= |players|
  {
    forall i, j | 0 <= i < j < n :: players[i].playerId != players[j].playerId
  }

  predicate DistinctSlots(players: seq<LobbyPlayer>, n: nat)
    requires n <= |players|
  {
    forall i, j | 0 <= i < j < n :: players[i].slotIndex != players[j].slotIndex
  }

  predicate ValidRoster(roster: Roster, maximum: u8)
  {
    && roster.revision != 0
    && 1 <= maximum <= MAX_WARCRAFT_PLAYERS
    && |roster.players| <= maximum
    && ValidEntries(roster.players, |roster.players|, maximum)
  }

  /** The first `n` entries are valid and repeat neither an id nor a slot. */
  predicate ValidEntries(players: seq<LobbyPlayer>, n: nat, maximum: u8)
    requires n <= |players|
  {
    && (forall i | 0 <= i < n :: ValidEntry(players[i], maximum))
    && DistinctIds(players, n)
    && DistinctSlots(players, n)
  }

  function EntryError(p: LobbyPlayer, maximum: u8): (e: Option<RosterError>)
    ensures e.None? <==> ValidEntry(p, maximum)
  {
    if p.playerId == 0 || p.playerId > maximum then Some(InvalidRosterPlayerId(p.playerId))
    else if p.slotIndex >= maximum then Some(InvalidRosterSlotIndex(p.slotIndex))
    else if !ValidPlayerName(p.name) then Some(InvalidPlayerName)
    else None
  }

  /** The verdict on one entry, given the ids and slots already taken. */
  function NextError(p: LobbyPlayer, maximum: u8, ids: set<u8>, slots: set<u8>): (e: Option<RosterError>)
  {
    var error := EntryError(p, maximum);
    if error.Some? then error
    else if p.playerId in ids then Some(DuplicateRosterPlayerId(p.playerId))
    else if p.slotIndex in slots then Some(DuplicateRosterSlotIndex(p.slotIndex))
    else None
  }

  /** The ids of the first `n` entries. */
  function IdSet(players: seq<LobbyPlayer>, n: nat): (ids: set<u8>)
    requires n <= |players|
  {
    if n == 0 then {} else IdSet(players, n - 1) + {players[n - 1].playerId}
  }

  function SlotSet(players: seq<LobbyPlayer>, n: nat): (slots: set<u8>)
    requires n <= |players|
  {
    if n == 0 then {} else SlotSet(players, n - 1) + {players[n - 1].slotIndex}
  }

  predicate RepeatsId(players: seq<LobbyPlayer>, id: u8)
  {
    exists i, j | 0 <= i < j < |players| :: players[i].playerId == players[j].playerId == id
  }

  predicate RepeatsSlot(players: seq<LobbyPlayer>, slot: u8)
  {
    exists i, j | 0 <= i < j < |players| :: players[i].slotIndex == players[j].slotIndex == slot
  }

  lemma {:induction false} InIdSet(players: seq<LobbyPlayer>, n: nat, id: u8)
    requires n <= |players|
    ensures id in IdSet(players, n) <==> exists i | 0 <= i < n :: players[i].playerId == id
  {
    if n > 0 {
      InIdSet(players, n - 1, id);
    }
  }

  lemma {:induction false} InSlotSet(players: seq<LobbyPlayer>, n: nat, slot: u8)
    requires n <= |players|
    ensures slot in SlotSet(players, n) <==> exists i | 0 <= i < n :: players[i].slotIndex == slot
  {
    if n > 0 {
      InSlotSet(players, n - 1, slot);
    }
  }

  lemma NextEntry(players: seq<LobbyPlayer>, n: nat, maximum: u8)
    requires n < |players| && ValidEntries(players, n, maximum)
    ensures var e := NextError(players[n], maximum, IdSet(players, n), SlotSet(players, n));
            if e.None? then ValidEntries(players, n + 1, maximum)
            else
              && !ValidEntries(players, |players|, maximum)
              && (e.value.DuplicateRosterPlayerId? ==> RepeatsId(players, e.value.playerId))
              && (e.value.DuplicateRosterSlotIndex? ==> RepeatsSlot(players, e.value.slotIndex))
  {
    hide IdSet, SlotSet, ValidPlayerName, RepeatsId, RepeatsSlot, ValidEntries;
    var p := players[n];
    var ids, slots := IdSet(players, n), SlotSet(players, n);
    if !ValidEntry(p, maximum) {
      BadEntry(players, n, maximum);
    } else if p.playerId in ids {
      InIdSet(players, n, p.playerId);
      var i :| 0 <= i < n && players[i].playerId == p.playerId;
      SameId(players, i, n, maximum);
    } else if p.slotIndex in slots {
      InSlotSet(players, n, p.slotIndex);
      var i :| 0 <= i < n && players[i].slotIndex == p.slotIndex;
      SameSlot(players, i, n, maximum);
    } else {
      InIdSet(players, n, p.playerId);
      InSlotSet(players, n, p.slotIndex);
      GoodEntry(players, n, maximum);
    }
  }

  lemma BadEntry(players: seq<LobbyPlayer>, n: nat, maximum: u8)
    requires n < |players| && !ValidEntry(players[n], maximum)
    ensures !ValidEntries(players, |players|, maximum)
  {
  }

  lemma SameId(players: seq<LobbyPlayer>, i: nat, n: nat, maximum: u8)
    requires i < n < |players| && players[i].playerId == players[n].playerId
    ensures RepeatsId(players, players[n].playerId) && !ValidEntries(players, |players|, maximum)
  {
    hide ValidEntry;
  }

  lemma SameSlot(players: seq<LobbyPlayer>, i: nat, n: nat, maximum: u8)
    requires i < n < |players| && players[i].slotIndex == players[n].slotIndex
    ensures RepeatsSlot(players, players[n].slotIndex) && !ValidEntries(players, |players|, maximum)
  {
    hide ValidEntry;
  }

  lemma GoodEntry(players: seq<LobbyPlayer>, n: nat, maximum: u8)
    requires n < |players| && ValidEntries(players, n, maximum) && ValidEntry(players[n], maximum)
    requires forall i | 0 <= i < n :: players[i].playerId != players[n].playerId
    requires forall i | 0 <= i < n :: players[i].slotIndex != players[n].slotIndex
    ensures ValidEntries(players, n + 1, maximum)
  {
    hide ValidEntry;
  }

  /** Nothing for exactly the valid rosters; a duplicate error names a value that really repeats. */
  ghost predicate Judged(roster: Roster, maximum: u8, e: Option<RosterError>)
  {
    if e.None? then ValidRoster(roster, maximum)
    else
      && !ValidRoster(roster, maximum)
      && (e.value.DuplicateRosterPlayerId? ==> RepeatsId(roster.players, e.value.playerId))
      && (e.value.DuplicateRosterSlotIndex? ==> RepeatsSlot(roster.players, e.value.slotIndex))
  }

  method Validate(roster: Roster, maximum: u8) returns (e: Option<RosterError>)
    ensures Judged(roster, maximum, e)
  {
    if roster.revision == 0 {
      return Some(InvalidRosterRevision);
    }
    var players := roster.players;
    if maximum == 0 || maximum > MAX_WARCRAFT_PLAYERS || |players| > maximum {
      return Some(InvalidRosterPlayerCount(|players|, maximum));
    }
    e := ValidateEntries(players, maximum);
  }

  method ValidateEntries(players: seq<LobbyPlayer>, maximum: u8) returns (e: Option<RosterError>)
    ensures e.None? <==> ValidEntries(players, |players|, maximum)
    ensures e.Some? && e.value.DuplicateRosterPlayerId? ==> RepeatsId(players, e.value.playerId)
    ensures e.Some? && e.value.DuplicateRosterSlotIndex? ==> RepeatsSlot(players, e.value.slotIndex)
  {
    var playerIds: set<u8> := {};
    var slotIndices: set<u8> := {};
    e := None;
    for n := 0 to |players|
      invariant e.None? && ValidEntries(players, n, maximum)
      invariant playerIds == IdSet(players, n) && slotIndices == SlotSet(players, n)
    {
      NextEntry(players, n, maximum);
      var player := players[n];
      e := NextError(player, maximum, playerIds, slotIndices);
      if e.Some? {
        return;
      }
      playerIds := playerIds + {player.playerId};
      slotIndices := slotIndices + {player.slotIndex};
    }
  }

  /** The entries of a player table in id order; slots follow from ids. */
  function Listing(names: map<u8, string>, from: nat): (players: seq<LobbyPlayer>)
    requires 1 <= from <= 0x100
    decreases 0x100 - from
  {
    if from == 0x100 then []
    else if from in names then [LobbyPlayer(from, from - 1, names[from])] + Listing(names, from + 1)
    else Listing(names, from + 1)
  }

  function RosterOf(revision: u64, names: map<u8, string>): (roster: Roster)
  {
    Roster(revision, Listing(names, 1))
  }

  function Entry(names: map<u8, string>, id: u8): (p: Option<LobbyPlayer>)
  {
    if id in names && id > 0 then Some(LobbyPlayer(id, id - 1, names[id])) else None
  }

  lemma {:induction false} FindListing(names: map<u8, string>, from: nat, id: u8)
    requires 1 <= from <= 0x100
    ensures Find(Listing(names, from), id) == if id >= from then Entry(names, id) else None
    decreases 0x100 - from
  {
    if from < 0x100 {
      FindListing(names, from + 1, id);
    }
  }

  lemma PlayerOfRoster(revision: u64, names: map<u8, string>, id: u8)
    ensures Player(RosterOf(revision, names), id) == Entry(names, id)
  {
    FindListing(names, 1, id);
  }

  predicate Ascending(players: seq<LobbyPlayer>, from: nat)
  {
    && (forall i | 0 <= i < |players| :: from + i <= players[i].playerId)
    && (forall i, j | 0 <= i < j < |players| :: players[i].playerId < players[j].playerId)
  }

  /** Every entry is the one the table has for its id. */
  predicate Tabled(players: seq<LobbyPlayer>, names: map<u8, string>)
  {
    forall i | 0 <= i < |players| :: Some(players[i]) == Entry(names, players[i].playerId)
  }

  lemma {:induction false} ListingAscends(names: map<u8, string>, from: nat)
    requires 1 <= from <= 0x100
    ensures Ascending(Listing(names, from), from) && Tabled(Listing(names, from), names)
    decreases 0x100 - from
  {
    if from < 0x100 {
      ListingAscends(names, from + 1);
      if from in names {
        var rest := Listing(names, from + 1);
        assert forall i | 0 < i < |Listing(names, from)| :: Listing(names, from)[i] == rest[i - 1];
      }
    }
  }

  predicate SeatsWithin(names: map<u8, string>, maximum: u8)
  {
    forall id | id in names :: 1 <= id <= maximum && ValidPlayerName(names[id])
  }

  lemma ListedRosterIsValid(revision: u64, names: map<u8, string>, maximum: u8)
    requires revision != 0 && 1 <= maximum <= MAX_WARCRAFT_PLAYERS && SeatsWithin(names, maximum)
    ensures ValidRoster(RosterOf(revision, names), maximum)
  {
    var players := Listing(names, 1);
    ListingAscends(names, 1);
    if |players| > 0 {
      var last := players[|players| - 1];
      assert Some(last) == Entry(names, last.playerId);
    }
    forall i | 0 <= i < |players| ensures ValidEntry(players[i], maximum) {
      assert Some(players[i]) == Entry(names, players[i].playerId);
    }
  }

  lemma EmptyListing(names: map<u8, string>, from: nat)
    requires 1 <= from <= 0x100
    ensures Listing(names, from) == [] <==> forall id | id in names :: id < from
    decreases 0x100 - from
  {
    if from < 0x100 {
      EmptyListing(names, from + 1);
      if from !in names && Listing(names, from) == [] {
        forall id | id in names ensures id < from {
          assert id < from + 1;
        }
      }
    }
  }
}
