/** Whoever is introduced to Warcraft is introduced fully: name first, then appearance, then profile. */
module Introductions {
  import opened Bytes
  import opened Rosters
  import opened RoomModel
  import opened Slots
  import opened AgentModel

  /** After the introduction at `i` come the same player's appearance and profile, in this order. */
  predicate Completes(wires: seq<Wire>, i: nat)
    requires i < |wires| && wires[i].PlayerInfo?
  {
    exists j, k | i < j < k < |wires| ::
      wires[j] == PlayerSkins(wires[i].id) && wires[k] == PlayerProfile(wires[i].id, wires[i].name)
  }

  predicate FullyIntroduced(wires: seq<Wire>)
  {
    forall i | 0 <= i < |wires| && wires[i].PlayerInfo? :: Completes(wires, i)
  }

  predicate NoInfo(wires: seq<Wire>)
  {
    forall i | 0 <= i < |wires| :: !wires[i].PlayerInfo?
  }

  lemma JoinIntroductions(a: seq<Wire>, b: seq<Wire>)
    requires FullyIntroduced(a) && FullyIntroduced(b)
    ensures FullyIntroduced(a + b)
  {
    var wires := a + b;
    forall i | 0 <= i < |wires| && wires[i].PlayerInfo? ensures Completes(wires, i) {
      if i < |a| {
        var j, k :| i < j < k < |a| && a[j] == PlayerSkins(a[i].id) && a[k] == PlayerProfile(a[i].id, a[i].name);
        assert wires[j] == a[j] && wires[k] == a[k];
      } else {
        var n := i - |a|;
        assert Completes(b, n);
        var j, k :| n < j < k < |b| && b[j] == PlayerSkins(b[n].id) && b[k] == PlayerProfile(b[n].id, b[n].name);
        assert wires[|a| + j] == b[j] && wires[|a| + k] == b[k];
      }
    }
  }

  lemma NobodyIntroduced(wires: seq<Wire>)
    requires NoInfo(wires)
    ensures FullyIntroduced(wires)
  {
  }

  lemma OneIntroduction(p: LobbyPlayer)
    ensures FullyIntroduced(Introduction(p))
  {
    var wires := Introduction(p);
    assert wires[1] == PlayerSkins(p.playerId) && wires[2] == PlayerProfile(p.playerId, p.name);
    assert Completes(wires, 0);
  }

  lemma {:induction false} ArrivalsAreFull(players: seq<LobbyPlayer>, previous: Roster, self: u8)
    ensures FullyIntroduced(Arrivals(players, previous, self))
    decreases |players|
  {
    hide FullyIntroduced, Introduction;
    NobodyIntroduced([]);
    if players != [] {
      ArrivalsAreFull(players[1..], previous, self);
      OneIntroduction(players[0]);
      var rest := Arrivals(players[1..], previous, self);
      JoinIntroductions(Introduction(players[0]), rest);
      assert [] + rest == rest;
    }
  }

  lemma {:induction false} DeparturesIntroduceNobody(players: seq<LobbyPlayer>, next: Roster, self: u8)
    ensures NoInfo(Departures(players, next, self))
    decreases |players|
  {
    if players != [] {
      DeparturesIntroduceNobody(players[1..], next, self);
    }
  }

  /** A new roster comes with full introductions, and with the slots last. */
  lemma RosterIntroducesFully(lobby: Lobby, previous: Roster, next: Roster, id: u8)
    ensures var wires := RosterWires(lobby, previous, next, id);
            FullyIntroduced(wires) && wires[|wires| - 1] == SlotTable(Table(lobby, next))
  {
    hide Departures, Arrivals, FullyIntroduced;
    var a, b := Departures(previous.players, next, id), Arrivals(next.players, previous, id);
    DeparturesIntroduceNobody(previous.players, next, id);
    NobodyIntroduced(a);
    ArrivalsAreFull(next.players, previous, id);
    NobodyIntroduced([SlotTable(Table(lobby, next))]);
    JoinIntroductions(a, b);
    JoinIntroductions(a + b, [SlotTable(Table(lobby, next))]);
  }

  // The handshake.

  lemma {:induction false} InfosOf(players: seq<LobbyPlayer>, self: u8, w: Wire)
    ensures w in Infos(players, self) <==>
              exists i | 0 <= i < |players| :: players[i].playerId != self
                && w == PlayerInfo(players[i].playerId, players[i].name)
    decreases |players|
  {
    if players != [] {
      InfosOf(players[1..], self, w);
      if w in Infos(players[1..], self) {
        var i :| 0 <= i < |players[1..]| && players[1..][i].playerId != self
                 && w == PlayerInfo(players[1..][i].playerId, players[1..][i].name);
        assert players[i + 1] == players[1..][i];
      }
      if i :| 1 <= i < |players| && players[i].playerId != self
              && w == PlayerInfo(players[i].playerId, players[i].name) {
        assert players[1..][i - 1] == players[i];
      }
    }
  }

  lemma {:induction false} SkinsAndProfiles(players: seq<LobbyPlayer>, self: u8, i: nat)
    requires i < |players|
    ensures players[i].playerId != self ==> PlayerSkins(players[i].playerId) in SkinsOf(players, self)
    ensures PlayerProfile(players[i].playerId, players[i].name) in Profiles(players)
    decreases |players|
  {
    if i > 0 {
      SkinsAndProfiles(players[1..], self, i - 1);
    }
  }

  lemma {:induction false} OnlyInfosInform(players: seq<LobbyPlayer>, self: u8)
    ensures NoInfo(SkinsOf(players, self)) && NoInfo(Profiles(players))
    decreases |players|
  {
    if players != [] {
      OnlyInfosInform(players[1..], self);
    }
  }

  /** Introductions first, all appearances next, all profiles last. */
  lemma SegmentsIntroduce(infos: seq<Wire>, skins: seq<Wire>, profiles: seq<Wire>)
    requires NoInfo(skins) && NoInfo(profiles)
    requires forall w | w in infos && w.PlayerInfo? ::
               PlayerSkins(w.id) in skins && PlayerProfile(w.id, w.name) in profiles
    ensures FullyIntroduced(infos + skins + profiles)
  {
    var wires := infos + skins + profiles;
    forall i | 0 <= i < |wires| && wires[i].PlayerInfo? ensures Completes(wires, i) {
      assert i < |infos| && infos[i] in infos;
      var j :| 0 <= j < |skins| && skins[j] == PlayerSkins(infos[i].id);
      var k :| 0 <= k < |profiles| && profiles[k] == PlayerProfile(infos[i].id, infos[i].name);
      assert wires[|infos| + j] == skins[j] && wires[|infos| + |skins| + k] == profiles[k];
    }
  }

  /** The handshake opens with the slots, introduces everybody fully, names the own profile and ends with the map. */
  lemma HandshakeIsComplete(lobby: Lobby, id: u8, roster: Roster)
    ensures var wires := InitialWires(lobby, id, roster);
            && |wires| >= 3 && FullyIntroduced(wires)
            && wires[..3] == [SlotJoin(Table(lobby, roster), id), SlotTable(Table(lobby, roster)),
                              PlayerInfo(lobby.host.playerId, lobby.host.name)]
            && wires[|wires| - 1] == MapCheck
            && forall p | p in roster.players :: PlayerProfile(p.playerId, p.name) in wires
  {
    hide FullyIntroduced, Infos, SkinsOf, Profiles, Table;
    var players, host := roster.players, lobby.host;
    var opening := [SlotJoin(Table(lobby, roster), id), SlotTable(Table(lobby, roster))];
    var infos := opening + [PlayerInfo(host.playerId, host.name)] + Infos(players, id);
    var skins := [PlayerSkins(host.playerId)] + SkinsOf(players, id);
    var profiles := [PlayerProfile(host.playerId, host.name)] + Profiles(players) + [MapCheck];
    OnlyInfosInform(players, id);
    forall w | w in infos && w.PlayerInfo?
      ensures PlayerSkins(w.id) in skins && PlayerProfile(w.id, w.name) in profiles
    {
      if w in Infos(players, id) {
        InfosOf(players, id, w);
        var i :| 0 <= i < |players| && players[i].playerId != id
                 && w == PlayerInfo(players[i].playerId, players[i].name);
        SkinsAndProfiles(players, id, i);
      }
    }
    SegmentsIntroduce(infos, skins, profiles);
    assert infos + skins + profiles == InitialWires(lobby, id, roster);
    forall p | p in players ensures PlayerProfile(p.playerId, p.name) in profiles {
      var i :| 0 <= i < |players| && players[i] == p;
      SkinsAndProfiles(players, id, i);
    }
  }
}
