/** Warcraft's player table always equals the virtual host plus the remote players of the agent's roster. */
module WarcraftView {
  import opened Bytes
  import opened Rosters
  import opened RoomModel
  import opened Slots
  import opened AgentModel

  function Lookup(others: map<u8, string>, id: u8): (name: Option<string>)
  {
    if id in others then Some(others[id]) else None
  }

  /** What the table should say about `id`. */
  function Expected(lobby: Lobby, roster: Roster, self: u8, id: u8): (name: Option<string>)
  {
    if id == lobby.host.playerId then Some(lobby.host.name)
    else if id != self && Player(roster, id).Some? then Some(Player(roster, id).value.name)
    else None
  }

  predicate Sees(wc: Warcraft, lobby: Lobby, roster: Roster)
  {
    forall id: u8 :: Lookup(wc.others, id) == Expected(lobby, roster, wc.self, id)
  }

  /** `p` is a remote player whose entry differs in `other`. */
  predicate Changed(p: Option<LobbyPlayer>, other: Roster, self: u8)
  {
    p.Some? && p.value.playerId != self && Player(other, p.value.playerId) != p
  }

  lemma AllFinds(players: seq<LobbyPlayer>)
    requires players != []
    ensures forall id: u8 :: Find(players, id) ==
              if players[0].playerId == id then Some(players[0]) else Find(players[1..], id)
  {
  }

  lemma NothingShown(wc: Warcraft)
    ensures ShowAll(wc, []) == Some(wc)
  {
  }

  lemma NobodyFound(roster: Roster)
    ensures forall id: u8 :: Find([], id) == None
  {
  }

  lemma LeaveShown(wc: Warcraft, id: u8, code: nat, rest: seq<Wire>)
    requires id in wc.others
    ensures ShowAll(wc, [PlayerLeave(id, code)] + rest) == ShowAll(wc.(others := wc.others - {id}), rest)
  {
    assert ([PlayerLeave(id, code)] + rest)[1..] == rest;
  }

  lemma {:induction false} TailDistinct(players: seq<LobbyPlayer>)
    requires players != [] && DistinctIds(players, |players|)
    ensures DistinctIds(players[1..], |players| - 1)
    ensures Find(players[1..], players[0].playerId).None?
  {
    forall i, j | 0 <= i < j < |players| - 1 ensures players[1..][i].playerId != players[1..][j].playerId {
      assert players[1..][i] == players[i + 1] && players[1..][j] == players[j + 1];
    }
  }

  /** The departures remove exactly the changed remote players. */
  lemma {:induction false} DeparturesShown(wc: Warcraft, players: seq<LobbyPlayer>, next: Roster)
    requires DistinctIds(players, |players|)
    requires forall id: u8 :: Find(players, id).Some? && id != wc.self ==> id in wc.others
    ensures var r := ShowAll(wc, Departures(players, next, wc.self));
            && r.Some? && r.value.self == wc.self && r.value.slots == wc.slots
            && forall id: u8 :: Lookup(r.value.others, id) ==
                 if Changed(Find(players, id), next, wc.self) then None else Lookup(wc.others, id)
    decreases |players|
  {
    hide Find, Show, ShowAll;
    if players == [] {
      NothingShown(wc);
      NobodyFound(next);
    } else {
      var p := players[0];
      TailDistinct(players);
      AllFinds(players);
      var rest := Departures(players[1..], next, wc.self);
      if p.playerId != wc.self && Player(next, p.playerId) != Some(p) {
        assert Find(players, p.playerId).Some?;
        LeaveShown(wc, p.playerId, LEAVE_LOBBY_CODE, rest);
        DeparturesShown(wc.(others := wc.others - {p.playerId}), players[1..], next);
      } else {
        DeparturesShown(wc, players[1..], next);
        assert Departures(players, next, wc.self) == [] + rest == rest;
      }
    }
  }

  /** An introduction puts one unknown player into the table. */
  lemma IntroductionShown(wc: Warcraft, p: LobbyPlayer, rest: seq<Wire>)
    requires p.playerId != wc.self && p.playerId !in wc.others
    ensures ShowAll(wc, Introduction(p) + rest) == ShowAll(wc.(others := wc.others[p.playerId := p.name]), rest)
  {
    var wires := Introduction(p) + rest;
    var w1 := wc.(others := wc.others[p.playerId := p.name]);
    assert wires[1..][1..][1..] == rest;
    assert wires[1..][0] == PlayerSkins(p.playerId) && wires[1..][1..][0] == PlayerProfile(p.playerId, p.name);
    assert ShowAll(w1, wires[1..]) == ShowAll(w1, wires[1..][1..]);
    assert ShowAll(w1, wires[1..][1..]) == ShowAll(w1, wires[1..][1..][1..]);
  }

  /** The arrivals introduce exactly the changed remote players. */
  lemma {:induction false} ArrivalsShown(wc: Warcraft, players: seq<LobbyPlayer>, previous: Roster)
    requires DistinctIds(players, |players|)
    requires forall id: u8 :: Changed(Find(players, id), previous, wc.self) ==> id !in wc.others
    ensures var r := ShowAll(wc, Arrivals(players, previous, wc.self));
            && r.Some? && r.value.self == wc.self && r.value.slots == wc.slots
            && forall id: u8 :: Lookup(r.value.others, id) ==
                 if Changed(Find(players, id), previous, wc.self) then Some(Find(players, id).value.name)
                 else Lookup(wc.others, id)
    decreases |players|
  {
    hide Find, Show, Introduction;
    if players != [] {
      var p := players[0];
      TailDistinct(players);
      AllFinds(players);
      var rest := Arrivals(players[1..], previous, wc.self);
      if p.playerId != wc.self && Player(previous, p.playerId) != Some(p) {
        assert Find(players, p.playerId) == Some(p);
        assert Changed(Find(players, p.playerId), previous, wc.self);
        IntroductionShown(wc, p, rest);
        ArrivalsShown(wc.(others := wc.others[p.playerId := p.name]), players[1..], previous);
      } else {
        ArrivalsShown(wc, players[1..], previous);
        assert Arrivals(players, previous, wc.self) == [] + rest == rest;
      }
    }
  }

  lemma NobodyIsHost(lobby: Lobby, roster: Roster)
    requires DotaLobby(lobby) && ValidRoster(roster, DOTA_HUMAN_SLOTS)
    ensures Player(roster, lobby.host.playerId).None?
  {
    var found := Player(roster, lobby.host.playerId);
    assert forall i | 0 <= i < |roster.players| :: ValidEntry(roster.players[i], DOTA_HUMAN_SLOTS);
  }

  /** A roster update takes Warcraft from one roster to the next, and never confuses it on the way. */
  lemma RosterShown(lobby: Lobby, wc: Warcraft, previous: Roster, next: Roster)
    requires DotaLobby(lobby) && ValidRoster(previous, DOTA_HUMAN_SLOTS) && ValidRoster(next, DOTA_HUMAN_SLOTS)
    requires Sees(wc, lobby, previous)
    ensures var r := ShowAll(wc, RosterWires(lobby, previous, next, wc.self));
            && r.Some? && r.value.self == wc.self && Sees(r.value, lobby, next)
            && r.value.slots == SlotsFor(lobby, next, 11)
  {
    hide Find, Departures, Arrivals, ShowAll, SlotsFor;
    NobodyIsHost(lobby, previous);
    NobodyIsHost(lobby, next);
    forall id: u8 | Find(previous.players, id).Some? && id != wc.self ensures id in wc.others {
      assert Lookup(wc.others, id) == Expected(lobby, previous, wc.self, id);
    }
    DeparturesShown(wc, previous.players, next);
    var w1 := ShowAll(wc, Departures(previous.players, next, wc.self)).value;
    ArrivalsAreNew(lobby, wc, w1, previous, next);
    ArrivalsShown(w1, next.players, previous);
    var w2 := ShowAll(w1, Arrivals(next.players, previous, wc.self)).value;
    TableShown(lobby, w2, next);
    ShowAppend(wc, Departures(previous.players, next, wc.self), Arrivals(next.players, previous, wc.self));
    ShowAppend(wc, Departures(previous.players, next, wc.self) + Arrivals(next.players, previous, wc.self),
        [SlotTable(Table(lobby, next))]);
    NextSeen(lobby, wc, w1, w2, previous, next);
  }

  lemma TableShown(lobby: Lobby, wc: Warcraft, roster: Roster)
    ensures ShowAll(wc, [SlotTable(Table(lobby, roster))]) == Some(wc.(slots := SlotsFor(lobby, roster, 11)))
  {
    var wires := [SlotTable(Table(lobby, roster))];
    assert wires[1..] == [];
    assert ShowAll(wc.(slots := SlotsFor(lobby, roster, 11)), []) == Some(wc.(slots := SlotsFor(lobby, roster, 11)));
  }

  /** The table after departures and arrivals, player by player. */
  predicate AfterDepartures(wc: Warcraft, w1: Warcraft, previous: Roster, next: Roster)
  {
    && w1.self == wc.self
    && forall id: u8 :: Lookup(w1.others, id) ==
         if Changed(Find(previous.players, id), next, wc.self) then None else Lookup(wc.others, id)
  }

  lemma ArrivalsAreNew(lobby: Lobby, wc: Warcraft, w1: Warcraft, previous: Roster, next: Roster)
    requires Sees(wc, lobby, previous) && AfterDepartures(wc, w1, previous, next)
    requires Player(next, lobby.host.playerId).None?
    ensures forall id: u8 :: Changed(Find(next.players, id), previous, wc.self) ==> id !in w1.others
  {
    hide Find;
    forall id: u8 | Changed(Find(next.players, id), previous, wc.self) ensures id !in w1.others {
      assert Lookup(wc.others, id) == Expected(lobby, previous, wc.self, id);
      assert Lookup(w1.others, id) == None;
    }
  }

  lemma NextSeen(lobby: Lobby, wc: Warcraft, w1: Warcraft, w2: Warcraft, previous: Roster, next: Roster)
    requires Sees(wc, lobby, previous) && AfterDepartures(wc, w1, previous, next) && w2.self == wc.self
    requires forall id: u8 :: Lookup(w2.others, id) ==
               if Changed(Find(next.players, id), previous, wc.self) then Some(Find(next.players, id).value.name)
               else Lookup(w1.others, id)
    requires Player(next, lobby.host.playerId).None? && Player(previous, lobby.host.playerId).None?
    ensures Sees(w2, lobby, next)
  {
    hide Find;
    forall id: u8 ensures Lookup(w2.others, id) == Expected(lobby, next, wc.self, id) {
      assert Lookup(wc.others, id) == Expected(lobby, previous, wc.self, id);
      assert Lookup(w1.others, id) ==
          if Changed(Find(previous.players, id), next, wc.self) then None else Lookup(wc.others, id);
    }
  }

  /** Warcraft recognizes the host and everybody on the roster. */
  lemma RosterIsRecognized(lobby: Lobby, wc: Warcraft, roster: Roster, id: u8)
    requires Sees(wc, lobby, roster)
    ensures Recognizes(wc, lobby.host.playerId)
    ensures Player(roster, id).Some? ==> Recognizes(wc, id)
  {
    hide Find;
    assert Lookup(wc.others, id) == Expected(lobby, roster, wc.self, id);
    assert Lookup(wc.others, lobby.host.playerId) == Expected(lobby, roster, wc.self, lobby.host.playerId);
  }

  /** Chat from the host or somebody on the roster is shown to people Warcraft recognizes. */
  lemma ChatShown(lobby: Lobby, wc: Warcraft, roster: Roster, from: u8, text: ChatText)
    requires Sees(wc, lobby, roster) && DistinctIds(roster.players, |roster.players|)
    requires from == lobby.host.playerId || Player(roster, from).Some?
    ensures ShowAll(wc, [ChatFromHost(from, Ids(roster.players), text)]) == Some(wc)
  {
    hide Find, Sees, Recognizes, ShowAll, DistinctIds;
    var recipients := Ids(roster.players);
    RosterIsRecognized(lobby, wc, roster, from);
    forall i | 0 <= i < |recipients| ensures Recognizes(wc, recipients[i]) {
      FoundAt(roster.players, i);
      RosterIsRecognized(lobby, wc, roster, recipients[i]);
    }
    QuietShown(wc, ChatFromHost(from, recipients, text));
  }

  lemma QuietShown(wc: Warcraft, wire: Wire)
    requires Show(wc, wire) == Some(wc)
    ensures ShowAll(wc, [wire]) == Some(wc)
  {
    hide Show;
    assert [wire][1..] == [];
    assert ShowAll(wc, []) == Some(wc);
  }

  lemma StartShown(lobby: Lobby, wc: Warcraft, roster: Roster)
    requires Sees(wc, lobby, roster)
    ensures ShowAll(wc, [CountdownStart, CountdownEnd, LoadedOthers(lobby.host.playerId)]) == Some(wc)
  {
    hide ShowAll, Sees, Recognizes;
    var host := lobby.host.playerId;
    RosterIsRecognized(lobby, wc, roster, host);
    QuietShown(wc, CountdownStart);
    QuietShown(wc, CountdownEnd);
    QuietShown(wc, LoadedOthers(host));
    ShowAppend(wc, [CountdownStart], [CountdownEnd]);
    ShowAppend(wc, [CountdownStart] + [CountdownEnd], [LoadedOthers(host)]);
    assert [CountdownStart] + [CountdownEnd] + [LoadedOthers(host)]
        == [CountdownStart, CountdownEnd, LoadedOthers(host)];
  }

  // In-game departures.

  /** `next` is `roster` without player `p`. */
  predicate RemovesOnly(roster: Roster, next: Roster, p: u8)
  {
    forall id: u8 :: Player(next, id) == if id == p then None else Player(roster, id)
  }

  /** An in-game leave frame keeps Warcraft in step when the new roster lacks just that player. */
  lemma DepartureShown(lobby: Lobby, wc: Warcraft, roster: Roster, next: Roster, p: u8, code: nat)
    requires Sees(wc, lobby, roster) && RemovesOnly(roster, next, p)
    requires Player(roster, p).Some? && p != wc.self && p != lobby.host.playerId
    ensures var r := ShowAll(wc, [PlayerLeave(p, code)]);
            r.Some? && r.value.self == wc.self && r.value.slots == wc.slots && Sees(r.value, lobby, next)
  {
    hide Find, ShowAll, Player;
    assert Lookup(wc.others, p) == Expected(lobby, roster, wc.self, p);
    var w1 := wc.(others := wc.others - {p});
    LeaveShown(wc, p, code, []);
    assert [PlayerLeave(p, code)] + [] == [PlayerLeave(p, code)];
    NothingShown(w1);
    forall id: u8 ensures Lookup(w1.others, id) == Expected(lobby, next, wc.self, id) {
      assert Lookup(wc.others, id) == Expected(lobby, roster, wc.self, id);
    }
  }

  // The handshake.

  lemma OneShown(wc: Warcraft, wire: Wire, rest: seq<Wire>)
    requires Show(wc, wire).Some?
    ensures ShowAll(wc, [wire] + rest) == ShowAll(Show(wc, wire).value, rest)
  {
    hide Show;
    assert ([wire] + rest)[1..] == rest;
  }

  lemma {:induction false} InfosShown(wc: Warcraft, players: seq<LobbyPlayer>)
    requires DistinctIds(players, |players|)
    requires forall id: u8 :: Find(players, id).Some? ==> id !in wc.others
    ensures var r := ShowAll(wc, Infos(players, wc.self));
            && r.Some? && r.value.self == wc.self && r.value.slots == wc.slots
            && forall id: u8 :: Lookup(r.value.others, id) ==
                 if id != wc.self && Find(players, id).Some?
                 then Some(Find(players, id).value.name) else Lookup(wc.others, id)
    decreases |players|
  {
    hide Find, ShowAll;
    if players == [] {
      NothingShown(wc);
      NobodyFound(Roster(0, []));
    } else {
      var p := players[0];
      TailDistinct(players);
      AllFinds(players);
      var rest := Infos(players[1..], wc.self);
      assert Find(players, p.playerId) == Some(p);
      if p.playerId != wc.self {
        OneShown(wc, PlayerInfo(p.playerId, p.name), rest);
        InfosShown(wc.(others := wc.others[p.playerId := p.name]), players[1..]);
      } else {
        InfosShown(wc, players[1..]);
        assert Infos(players, wc.self) == [] + rest == rest;
      }
    }
  }

  lemma {:induction false} SkinsShown(wc: Warcraft, players: seq<LobbyPlayer>)
    requires forall i | 0 <= i < |players| :: players[i].playerId == wc.self || players[i].playerId in wc.others
    ensures ShowAll(wc, SkinsOf(players, wc.self)) == Some(wc)
    decreases |players|
  {
    hide ShowAll;
    if players == [] {
      NothingShown(wc);
    } else {
      var p := players[0];
      assert forall i | 0 <= i < |players[1..]| :: players[1..][i] == players[i + 1];
      SkinsShown(wc, players[1..]);
      var rest := SkinsOf(players[1..], wc.self);
      if p.playerId != wc.self {
        OneShown(wc, PlayerSkins(p.playerId), rest);
      } else {
        assert SkinsOf(players, wc.self) == [] + rest == rest;
      }
    }
  }

  lemma {:induction false} ProfilesShown(wc: Warcraft, players: seq<LobbyPlayer>)
    requires forall i | 0 <= i < |players| ::
               players[i].playerId == wc.self || Lookup(wc.others, players[i].playerId) == Some(players[i].name)
    ensures ShowAll(wc, Profiles(players)) == Some(wc)
    decreases |players|
  {
    hide ShowAll;
    if players == [] {
      NothingShown(wc);
    } else {
      var p := players[0];
      assert forall i | 0 <= i < |players[1..]| :: players[1..][i] == players[i + 1];
      ProfilesShown(wc, players[1..]);
      OneShown(wc, PlayerProfile(p.playerId, p.name), Profiles(players[1..]));
    }
  }

  lemma {:induction false} FoundAt(players: seq<LobbyPlayer>, i: nat)
    requires DistinctIds(players, |players|) && i < |players|
    ensures Find(players, players[i].playerId) == Some(players[i])
    decreases |players|
  {
    if i > 0 {
      TailDistinct(players);
      FoundAt(players[1..], i - 1);
    }
  }

  /** The handshake seats the player and shows Warcraft the host and every remote player, each exactly once. */
  lemma HandshakeShown(lobby: Lobby, id: u8, roster: Roster)
    requires DotaLobby(lobby) && ValidRoster(roster, DOTA_HUMAN_SLOTS) && Player(roster, id).Some?
    ensures var r := ShowAll(Warcraft(id, map[], []), InitialWires(lobby, id, roster));
            && r.Some? && r.value.self == id && Sees(r.value, lobby, roster)
            && r.value.slots == SlotsFor(lobby, roster, 11)
  {
    hide Find, ShowAll, SlotsFor, Infos, SkinsOf, Profiles, Assigned;
    var w0 := Warcraft(id, map[lobby.host.playerId := lobby.host.name], SlotsFor(lobby, roster, 11));
    var players := roster.players;
    NobodyIsHost(lobby, roster);
    InfosShown(w0, players);
    var w1 := ShowAll(w0, Infos(players, id)).value;
    forall i | 0 <= i < |players|
      ensures players[i].playerId == id || Lookup(w1.others, players[i].playerId) == Some(players[i].name)
    {
      FoundAt(players, i);
    }
    SkinsShown(w1, players);
    ProfilesShown(w1, players);
    assert Lookup(w1.others, lobby.host.playerId) == Some(lobby.host.name);
    MemberIsAssigned(lobby, roster, id);
    HandshakeParts(lobby, id, roster, w1);
  }

  lemma MemberIsAssigned(lobby: Lobby, roster: Roster, id: u8)
    requires DotaLobby(lobby) && ValidRoster(roster, DOTA_HUMAN_SLOTS) && Player(roster, id).Some?
    ensures Assigned(SlotsFor(lobby, roster, 11), id)
  {
    hide SlotsFor, Find, Assigned;
    var address := seq(SOCKET_ADDRESS_LENGTH, _ => 0);
    MembersAreWelcome(lobby, roster, id, address);
  }

  lemma HandshakeParts(lobby: Lobby, id: u8, roster: Roster, w1: Warcraft)
    requires var w0 := Warcraft(id, map[lobby.host.playerId := lobby.host.name], SlotsFor(lobby, roster, 11));
             ShowAll(w0, Infos(roster.players, id)) == Some(w1)
    requires ShowAll(w1, SkinsOf(roster.players, id)) == Some(w1) && ShowAll(w1, Profiles(roster.players)) == Some(w1)
    requires Lookup(w1.others, lobby.host.playerId) == Some(lobby.host.name) && id != lobby.host.playerId
    requires Assigned(SlotsFor(lobby, roster, 11), id)
    ensures ShowAll(Warcraft(id, map[], []), InitialWires(lobby, id, roster)) == Some(w1)
  {
    hide ShowAll, SlotsFor, Infos, SkinsOf, Profiles, Assigned;
    var host := lobby.host;
    var table := Table(lobby, roster);
    var infos, skins, profiles := Infos(roster.players, id), SkinsOf(roster.players, id), Profiles(roster.players);
    var tail3 := [PlayerProfile(host.playerId, host.name)] + (profiles + [MapCheck]);
    var tail2 := skins + tail3;
    var tail1 := [PlayerSkins(host.playerId)] + tail2;
    var tail0 := [PlayerInfo(host.playerId, host.name)] + (infos + tail1);
    assert InitialWires(lobby, id, roster) == [SlotJoin(table, id)] + ([SlotTable(table)] + tail0);
    var start := Warcraft(id, map[], []);
    OneShown(start, SlotJoin(table, id), [SlotTable(table)] + tail0);
    OneShown(start.(slots := SlotsFor(lobby, roster, 11)), SlotTable(table), tail0);
    OneShown(start.(slots := SlotsFor(lobby, roster, 11)), PlayerInfo(host.playerId, host.name), infos + tail1);
    ShowAppend(Warcraft(id, map[host.playerId := host.name], SlotsFor(lobby, roster, 11)), infos, tail1);
    OneShown(w1, PlayerSkins(host.playerId), tail2);
    ShowAppend(w1, skins, tail3);
    OneShown(w1, PlayerProfile(host.playerId, host.name), profiles + [MapCheck]);
    ShowAppend(w1, profiles, [MapCheck]);
    OneShown(w1, MapCheck, []);
    NothingShown(w1);
    assert [MapCheck] + [] == [MapCheck];
  }

  // Roster updates in any order.

  function Announcements(rosters: seq<Roster>): (updates: seq<Update>)
  {
    if rosters == [] then [] else [RosterUpdate(rosters[0])] + Announcements(rosters[1..])
  }

  /** The roster of the highest revision; the earliest of equals. */
  function Newest(known: Roster, rosters: seq<Roster>): (newest: Roster)
    decreases |rosters|
  {
    if rosters == [] then known
    else Newest(if rosters[0].revision <= known.revision then known else rosters[0], rosters[1..])
  }

  lemma {:induction false} NewestIsNewest(known: Roster, rosters: seq<Roster>)
    ensures Newest(known, rosters).revision >= known.revision
    ensures forall i | 0 <= i < |rosters| :: Newest(known, rosters).revision >= rosters[i].revision
    ensures Newest(known, rosters) == known || Newest(known, rosters) in rosters
    decreases |rosters|
  {
    if rosters != [] {
      NewestIsNewest(if rosters[0].revision <= known.revision then known else rosters[0], rosters[1..]);
      assert forall i | 0 < i < |rosters| :: rosters[i] == rosters[1..][i - 1];
    }
  }

  predicate InSync(lobby: Lobby, client: Client)
  {
    && !client.agent.finished && client.warcraft.self == client.agent.id
    && ValidRoster(client.agent.roster, DOTA_HUMAN_SLOTS)
    && Sees(client.warcraft, lobby, client.agent.roster)
  }

  lemma RosterTaken(lobby: Lobby, crc: Crc, client: Client, next: Roster)
    requires DotaLobby(lobby) && InSync(lobby, client)
    requires ValidRoster(next, DOTA_HUMAN_SLOTS) && Player(next, client.agent.id).Some?
    ensures var r := Absorb(lobby, crc, client, RosterUpdate(next));
            && r.Some? && InSync(lobby, r.value) && r.value.agent.id == client.agent.id
            && r.value.agent.roster ==
                 if next.revision <= client.agent.roster.revision then client.agent.roster else next
  {
    hide ShowAll, RosterWires, ValidRoster, Find, Sees, SlotsFor;
    NothingShown(client.warcraft);
    RosterShown(lobby, client.warcraft, client.agent.roster, next);
  }

  /** Rosters may arrive late, repeatedly and out of order: agent and Warcraft end up with the newest. */
  lemma {:induction false} RostersInAnyOrder(lobby: Lobby, crc: Crc, client: Client, rosters: seq<Roster>)
    requires DotaLobby(lobby) && InSync(lobby, client)
    requires forall i | 0 <= i < |rosters| ::
               ValidRoster(rosters[i], DOTA_HUMAN_SLOTS) && Player(rosters[i], client.agent.id).Some?
    ensures var r := AbsorbAll(lobby, crc, client, Announcements(rosters));
            && r.Some? && InSync(lobby, r.value)
            && r.value.agent.roster == Newest(client.agent.roster, rosters)
            && r.value.agent.roster in [client.agent.roster] + rosters
            && client.agent.roster.revision <= r.value.agent.roster.revision
            && forall i | 0 <= i < |rosters| :: rosters[i].revision <= r.value.agent.roster.revision
    decreases |rosters|
  {
    hide Absorb, InSync, ValidRoster, Find;
    NewestIsNewest(client.agent.roster, rosters);
    if rosters != [] {
      RosterTaken(lobby, crc, client, rosters[0]);
      var client' := Absorb(lobby, crc, client, RosterUpdate(rosters[0])).value;
      assert forall i | 0 <= i < |rosters[1..]| :: rosters[1..][i] == rosters[i + 1];
      RostersInAnyOrder(lobby, crc, client', rosters[1..]);
      assert Announcements(rosters)[1..] == Announcements(rosters[1..]);
    }
  }
}
