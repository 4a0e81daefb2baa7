/**
 Over whole runs Warcraft is shown exactly what the log calls for: every chat, countdown, start, loading report,
 turn, departure and end since the player's join, in order, up to the end of the game.
 */
module Scenes {
  import opened Bytes
  import opened Rosters
  import opened RoomModel
  import opened Slots
  import opened AgentModel
  import opened AgentAnswers
  import opened Compatibility
  import opened AgentRuns
  import opened Protocol
  import Server
  import Refinement

  /** The scenes a log calls for; a session ends with its game. */
  function Play(updates: seq<Update>): (scenes: seq<Scene>)
    decreases |updates|
  {
    if updates == [] then []
    else Script(updates[0]) + if updates[0].GameEnded? then [] else Play(updates[1..])
  }

  predicate Ends(updates: seq<Update>)
  {
    exists i | 0 <= i < |updates| :: updates[i].GameEnded?
  }

  lemma {:induction false} PlayAppend(a: seq<Update>, b: seq<Update>)
    ensures Play(a + b) == if Ends(a) then Play(a) else Play(a) + Play(b)
    decreases |a|
  {
    hide Script;
    if a == [] {
      assert a + b == b;
    } else {
      assert (a + b)[1..] == a[1..] + b;
      EndsFirstOrLater(a);
      PlayAppend(a[1..], b);
    }
  }

  lemma EndsFirstOrLater(updates: seq<Update>)
    requires updates != []
    ensures Ends(updates) <==> updates[0].GameEnded? || Ends(updates[1..])
  {
    if Ends(updates) && !updates[0].GameEnded? {
      var i :| 0 <= i < |updates| && updates[i].GameEnded?;
      assert updates[1..][i - 1].GameEnded?;
    }
    if Ends(updates[1..]) {
      var i :| 0 <= i < |updates[1..]| && updates[1..][i].GameEnded?;
      assert updates[i + 1].GameEnded?;
    }
  }

  lemma EndsAppend(a: seq<Update>, b: seq<Update>)
    ensures Ends(a + b) <==> Ends(a) || Ends(b)
  {
    if Ends(a) {
      var i :| 0 <= i < |a| && a[i].GameEnded?;
      assert (a + b)[i].GameEnded?;
    }
    if Ends(b) {
      var i :| 0 <= i < |b| && b[i].GameEnded?;
      assert (a + b)[|a| + i].GameEnded?;
    }
  }

  lemma {:induction false} AllWrittenAppend(lobby: Lobby, crc: Crc, client: Client, a: seq<Update>, b: seq<Update>)
    requires AbsorbAll(lobby, crc, client, a).Some?
    ensures AllWritten(lobby, crc, client, a + b) ==
              AllWritten(lobby, crc, client, a)
              + AllWritten(lobby, crc, AbsorbAll(lobby, crc, client, a).value, b)
    decreases |a|
  {
    hide Absorb, Written;
    if a == [] {
      assert a + b == b;
    } else {
      assert (a + b)[1..] == a[1..] + b;
      AllWrittenAppend(lobby, crc, Absorb(lobby, crc, client, a[0]).value, a[1..], b);
    }
  }

  // One update, one event.

  lemma AbsorbKeepsSettled(lobby: Lobby, crc: Crc, client: Client, u: Update)
    requires DotaLobby(lobby) && Settled(client.agent) && Absorb(lobby, crc, client, u).Some?
    ensures Settled(Absorb(lobby, crc, client, u).value.agent)
  {
    hide On, ShowAll, Shown, Addressed, ValidRoster, Find, Script;
    UpdateIsAnswered(lobby, crc, client.agent, u);
  }

  lemma {:induction false} AllKeepSettled(lobby: Lobby, crc: Crc, client: Client, updates: seq<Update>)
    requires DotaLobby(lobby) && Settled(client.agent) && AbsorbAll(lobby, crc, client, updates).Some?
    ensures Settled(AbsorbAll(lobby, crc, client, updates).value.agent)
    decreases |updates|
  {
    hide Absorb, Settled;
    if updates != [] {
      AbsorbKeepsSettled(lobby, crc, client, updates[0]);
      AllKeepSettled(lobby, crc, Absorb(lobby, crc, client, updates[0]).value, updates[1..]);
    }
  }

  lemma WrittenAlone(lobby: Lobby, crc: Crc, client: Client, u: Update)
    ensures AllWritten(lobby, crc, client, [u]) == Written(lobby, crc, client, u)
  {
    hide Absorb, Written;
    assert [u][1..] == [];
    assert Written(lobby, crc, client, u) + [] == Written(lobby, crc, client, u);
  }

  /** An accepted update that is news is shown as scripted. */
  lemma OneIsShown(lobby: Lobby, crc: Crc, client: Client, u: Update)
    requires DotaLobby(lobby) && Settled(client.agent) && !client.agent.finished
    requires Absorb(lobby, crc, client, u).Some?
    requires u.Start? || u.PlayerLoaded? ==> !Stale(client.agent, u)
    ensures Shown(AllWritten(lobby, crc, client, [u])) == Script(u)
    ensures Play([u]) == Script(u)
  {
    hide On, ShowAll, Shown, Addressed, Settled, Complaint;
    UpdateIsAnswered(lobby, crc, client.agent, u);
    WrittenAlone(lobby, crc, client, u);
    assert [u][1..] == [];
    assert Script(u) + [] == Script(u);
  }

  lemma {:induction false} FinishedWritesNothing(lobby: Lobby, crc: Crc, client: Client, updates: seq<Update>)
    requires client.agent.finished
    ensures AllWritten(lobby, crc, client, updates) == []
    decreases |updates|
  {
    hide On;
    if updates != [] {
      FinishedWritesNothing(lobby, crc, client, updates[1..]);
    }
  }

  /** What an agent in agreement has not heard yet. */
  lemma NewsIsNews(lobby: Lobby, cfg: Config, st: State, e: Event, p: u8, client: Client)
    requires Allowed(cfg, st, e) && p in st.members && st.phase != Ended && Agrees(lobby, st, p, client)
    ensures !client.agent.finished
    ensures e.Begin? ==> !Stale(client.agent, Start)
    ensures e.Load? ==> !Stale(client.agent, PlayerLoaded(e.player))
  {
    hide Knows, Shows, ProperSlot, LeastFree;
  }

  /** What an event broadcasts: nothing, one update, or a roster and the end of a countdown. */
  lemma SentShape(cfg: Config, st: State, e: Event)
    requires Allowed(cfg, st, e)
    ensures var sent := Sent(cfg, st, e);
            || sent == []
            || (|sent| == 1 && (sent[0].Start? ==> e.Begin?)
                && (sent[0].PlayerLoaded? ==> e.Load? && sent[0].player == e.player))
            || (|sent| == 2 && sent[0].RosterUpdate? && sent[1] == CountdownCancelled)
    ensures Ends(Sent(cfg, st, e)) <==> e.End?
  {
    hide ProperSlot, LeastFree, Listing;
    if e.End? {
      assert Sent(cfg, st, e)[0].GameEnded?;
    }
  }

  /** One event later, an agent in agreement has shown what the event calls for, and nothing once it is finished. */
  lemma EventIsShown(lobby: Lobby, cfg: Config, st: State, e: Event, p: u8, client: Client)
    requires DotaLobby(lobby) && DefaultPolicy(cfg) && Orderly(cfg, st) && Allowed(cfg, st, e)
    requires Apply(cfg, st, e).revision < U64_MAX && Orderly(cfg, Apply(cfg, st, e))
    requires p in st.members && p in Apply(cfg, st, e).members && Agrees(lobby, st, p, client)
    requires Settled(client.agent)
    ensures Shown(AllWritten(lobby, cfg.crc, client, Sent(cfg, st, e))) ==
              if st.phase == Ended then [] else Play(Sent(cfg, st, e))
  {
    hide Allowed, Apply, Sent, Orderly, Agrees, Settled, Absorb, AllWritten, Shown, Script, Play, Stale;
    var sent := Sent(cfg, st, e);
    EventTaken(lobby, cfg, st, e, p, client);
    SentShape(cfg, st, e);
    NothingToShow(lobby, cfg.crc, client);
    if st.phase == Ended {
      EndedIsFinished(lobby, st, p, client);
      FinishedWritesNothing(lobby, cfg.crc, client, sent);
    } else if |sent| == 1 {
      NewsIsNews(lobby, cfg, st, e, p, client);
      assert sent == [sent[0]];
      AbsorbOne(lobby, cfg.crc, client, sent[0]);
      StaleMatters(client.agent, sent[0]);
      OneIsShown(lobby, cfg.crc, client, sent[0]);
    } else if |sent| == 2 {
      NewsIsNews(lobby, cfg, st, e, p, client);
      assert sent == [sent[0]] + [CountdownCancelled];
      TwoAreShown(lobby, cfg.crc, client, sent[0]);
    }
  }

  lemma StaleMatters(a: Agent, u: Update)
    ensures u.Start? ==> u == Start
    ensures u.PlayerLoaded? ==> u == PlayerLoaded(u.player)
  {
  }

  lemma NothingToShow(lobby: Lobby, crc: Crc, client: Client)
    ensures Shown(AllWritten(lobby, crc, client, [])) == [] && Play([]) == [] && Shown([]) == []
  {
  }

  lemma EndedIsFinished(lobby: Lobby, st: State, p: u8, client: Client)
    requires p in st.members && st.phase == Ended && Agrees(lobby, st, p, client)
    ensures client.agent.finished
  {
  }

  lemma TwoAreShown(lobby: Lobby, crc: Crc, client: Client, u: Update)
    requires DotaLobby(lobby) && Settled(client.agent) && !client.agent.finished && u.RosterUpdate?
    requires AbsorbAll(lobby, crc, client, [u] + [CountdownCancelled]).Some?
    ensures Shown(AllWritten(lobby, crc, client, [u] + [CountdownCancelled])) == Play([u] + [CountdownCancelled])
  {
    hide Absorb, AbsorbAll, AllWritten, Shown, Script, Play, Settled;
    AbsorbAppend(lobby, crc, client, [u], [CountdownCancelled]);
    AbsorbOne(lobby, crc, client, u);
    var client' := Absorb(lobby, crc, client, u).value;
    AbsorbOne(lobby, crc, client', CountdownCancelled);
    AllWrittenAppend(lobby, crc, client, [u], [CountdownCancelled]);
    AbsorbKeepsSettled(lobby, crc, client, u);
    RosterDoesNotFinish(lobby, crc, client, u);
    OneIsShown(lobby, crc, client, u);
    OneIsShown(lobby, crc, client', CountdownCancelled);
    ShownAppend(AllWritten(lobby, crc, client, [u]), AllWritten(lobby, crc, client', [CountdownCancelled]));
    PlayAppend([u], [CountdownCancelled]);
    assert !Ends([u]);
  }

  lemma RosterDoesNotFinish(lobby: Lobby, crc: Crc, client: Client, u: Update)
    requires u.RosterUpdate? && !client.agent.finished && Absorb(lobby, crc, client, u).Some?
    ensures !Absorb(lobby, crc, client, u).value.agent.finished
  {
    hide ShowAll, RosterWires, ValidRoster, Find;
  }

  // Whole runs.

  /** What the agent of member `p` has shown is the play of the log since its join. */
  predicate Narrated(lobby: Lobby, cfg: Config, st: State, log: seq<Update>, p: u8)
    requires p in st.members
  {
    var ticket := st.members[p].ticket;
    var welcome := Welcomed(lobby, p, ticket.roster);
    && Accompanied(lobby, cfg, st, log, p)
    && Shown(AllWritten(lobby, cfg.crc, welcome.value, log[ticket.since..])) == Play(log[ticket.since..])
    && (st.phase == Ended <==> Ends(log[ticket.since..]))
  }

  lemma WelcomedIsSettled(lobby: Lobby, cfg: Config, st: State, p: u8)
    requires DefaultPolicy(cfg) && Orderly(cfg, st) && p in st.members
    requires Welcomed(lobby, p, st.members[p].ticket.roster).Some?
    ensures Settled(Welcomed(lobby, p, st.members[p].ticket.roster).value.agent)
  {
    hide ShowAll, InitialWires, ValidRoster, Find, WellFormed;
    assert GoodTicket(cfg, st, p);
  }

  /** The phase ends exactly with the event that ends the game, and stays ended while anybody is present. */
  lemma EndingIsFinal(cfg: Config, st: State, e: Event, p: u8)
    requires Allowed(cfg, st, e) && p in Apply(cfg, st, e).members
    ensures Apply(cfg, st, e).phase == Ended <==> st.phase == Ended || e.End?
    ensures st.phase == Ended && p in st.members ==> !e.End?
    ensures e.Enter? ==> st.phase == Waiting
  {
    hide ProperSlot, LeastFree, Listing;
  }

  lemma EventIsNarrated(lobby: Lobby, cfg: Config, st: State, log: seq<Update>, e: Event, p: u8)
    requires DotaLobby(lobby) && DefaultPolicy(cfg) && Orderly(cfg, st) && Allowed(cfg, st, e)
    requires Apply(cfg, st, e).revision < U64_MAX && Orderly(cfg, Apply(cfg, st, e))
    requires AllAccompanied(lobby, cfg, st, log) && p in Apply(cfg, st, e).members
    requires p in st.members ==> Narrated(lobby, cfg, st, log, p)
    ensures Narrated(lobby, cfg, Apply(cfg, st, e), log + Sent(cfg, st, e), p)
  {
    hide Allowed, Apply, Sent, Orderly, Agrees, AbsorbAll, AllWritten, Welcomed, LeastFree, Shown, Play, Ends, Settled;
    var st', sent := Apply(cfg, st, e), Sent(cfg, st, e);
    WhoIsThere(cfg, st, e, p);
    EventAccompanied(lobby, cfg, st, log, e, p);
    EndingIsFinal(cfg, st, e, p);
    var since := st'.members[p].ticket.since;
    var welcome := Welcomed(lobby, p, st'.members[p].ticket.roster).value;
    if p in st.members {
      assert Accompanied(lobby, cfg, st, log, p);
      var client := AbsorbAll(lobby, cfg.crc, welcome, log[since..]).value;
      WelcomedIsSettled(lobby, cfg, st, p);
      AllKeepSettled(lobby, cfg.crc, welcome, log[since..]);
      EventIsShown(lobby, cfg, st, e, p, client);
      SentShape(cfg, st, e);
      assert (log + sent)[since..] == log[since..] + sent;
      AllWrittenAppend(lobby, cfg.crc, welcome, log[since..], sent);
      ShownAppend(AllWritten(lobby, cfg.crc, welcome, log[since..]), AllWritten(lobby, cfg.crc, client, sent));
      PlayAppend(log[since..], sent);
      EndsAppend(log[since..], sent);
    } else {
      assert (log + [])[|log|..] == [];
      NothingToShow(lobby, cfg.crc, welcome);
      NothingEnds();
    }
  }

  lemma NothingEnds()
    ensures !Ends([])
  {
  }

  lemma {:induction false} RunIsNarrated(lobby: Lobby, cfg: Config, st: State, log: seq<Update>, events: seq<Event>,
                                         st': State, log': seq<Update>)
    requires DotaLobby(lobby) && DefaultPolicy(cfg) && Orderly(cfg, st) && AllAccompanied(lobby, cfg, st, log)
    requires Leads(cfg, st, log, events, st', log') && st'.revision < U64_MAX
    requires forall p | p in st.members :: Narrated(lobby, cfg, st, log, p)
    ensures forall p | p in st'.members :: Narrated(lobby, cfg, st', log', p)
    decreases |events|
  {
    hide Allowed, Apply, Sent, Orderly, Accompanied, Narrated;
    if events != [] {
      var e := events[0];
      var st1 := Apply(cfg, st, e);
      var log1 := log + Sent(cfg, st, e);
      RunRevisionGrows(cfg, st1, log1, events[1..], st', log');
      EventKeepsOrderly(cfg, st, e);
      EmittedLog(cfg, st, log, e);
      forall p | p in st1.members
        ensures Accompanied(lobby, cfg, st1, log1, p) && Narrated(lobby, cfg, st1, log1, p)
      {
        EventAccompanied(lobby, cfg, st, log, e, p);
        EventIsNarrated(lobby, cfg, st, log, e, p);
      }
      RunIsNarrated(lobby, cfg, st1, log1, events[1..], st', log');
    }
  }

  /**
   In every run, what the agent of a present player has shown Warcraft since the join is exactly what the log since
   then calls for, in order: each message as said by its sender, each step of a countdown and its cancellation by
   the host, the start, each loading report, each turn byte for byte, each departure with its code, and the end.
   */
  lemma LogReachesWarcraft(lobby: Lobby, cfg: Config, revision: u64, steps: seq<Server.Step>, p: u8)
    requires DotaLobby(lobby) && DefaultPolicy(cfg) && revision >= 1
    requires var w := Server.WorldAfter(cfg, revision, steps); w.room.revision < U64_MAX && p in w.room.players
    ensures var w := Server.WorldAfter(cfg, revision, steps);
            var ticket := Refinement.TicketOf(w, w.room.players[p].session);
            var welcome := Welcomed(lobby, p, ticket.roster);
            && welcome.Some? && ticket.since <= |w.log|
            && Shown(AllWritten(lobby, cfg.crc, welcome.value, w.log[ticket.since..])) == Play(w.log[ticket.since..])
  {
    hide Server.WorldAfter, Leads, Orderly, AllWritten, AbsorbAll, Shown, Play, Welcomed, Refinement.TicketOf, Agrees;
    var w := Server.WorldAfter(cfg, revision, steps);
    var st := Refinement.Abs(w);
    Refinement.ServerFollowsProtocol(cfg, revision, steps);
    InitialIsOrderly(lobby, cfg, revision);
    RunIsNarrated(lobby, cfg, Initial(revision), [], w.history.events, st, w.log);
    Refinement.MemberAt(w, p);
    assert Narrated(lobby, cfg, st, w.log, p);
  }

  /** Each message of these, if any, was written with everybody on the agent's roster at the time as recipient. */
  lemma ChatGoesToEverybody(lobby: Lobby, cfg: Config, revision: u64, steps: seq<Server.Step>, p: u8, n: nat)
    requires DotaLobby(lobby) && DefaultPolicy(cfg) && revision >= 1
    requires var w := Server.WorldAfter(cfg, revision, steps);
             && w.room.revision < U64_MAX && p in w.room.players
             && Refinement.TicketOf(w, w.room.players[p].session).since + n < |w.log|
    ensures var w := Server.WorldAfter(cfg, revision, steps);
            var ticket := Refinement.TicketOf(w, w.room.players[p].session);
            var welcome := Welcomed(lobby, p, ticket.roster);
            var updates := w.log[ticket.since..];
            && welcome.Some?
            && var client := AbsorbAll(lobby, cfg.crc, welcome.value, updates[..n]);
               && client.Some?
               && Addressed(client.value.agent.roster, Written(lobby, cfg.crc, client.value, updates[n]))
  {
    hide Server.WorldAfter, Leads, Orderly, AbsorbAll, Welcomed, Refinement.TicketOf, Agrees, Written, Addressed,
      Settled, Refinement.Abs, Accepts;
    var w := Server.WorldAfter(cfg, revision, steps);
    var ticket := Refinement.TicketOf(w, w.room.players[p].session);
    var updates := w.log[ticket.since..];
    AgentsNeverReject(lobby, cfg, revision, steps, p);
    var welcome := Welcomed(lobby, p, ticket.roster).value;
    assert updates[..n] + updates[n..] == updates;
    AbsorbAppend(lobby, cfg.crc, welcome, updates[..n], updates[n..]);
    AcceptedIsSettled(lobby, cfg, revision, steps, p);
    AllKeepSettled(lobby, cfg.crc, welcome, updates[..n]);
    WrittenIsAddressed(lobby, cfg.crc, AbsorbAll(lobby, cfg.crc, welcome, updates[..n]).value, updates[n]);
  }

  lemma AcceptedIsSettled(lobby: Lobby, cfg: Config, revision: u64, steps: seq<Server.Step>, p: u8)
    requires DotaLobby(lobby) && DefaultPolicy(cfg) && revision >= 1
    requires var w := Server.WorldAfter(cfg, revision, steps); w.room.revision < U64_MAX && p in w.room.players
    ensures var w := Server.WorldAfter(cfg, revision, steps);
            var welcome := Welcomed(lobby, p, Refinement.TicketOf(w, w.room.players[p].session).roster);
            welcome.Some? && Settled(welcome.value.agent)
  {
    hide Server.WorldAfter, AbsorbAll, Refinement.TicketOf, Refinement.Abs, Agrees, ShowAll, InitialWires, Find,
      ValidRoster;
    AgentsNeverReject(lobby, cfg, revision, steps, p);
  }

  lemma WrittenIsAddressed(lobby: Lobby, crc: Crc, client: Client, u: Update)
    requires DotaLobby(lobby) && Settled(client.agent)
    ensures Addressed(client.agent.roster, Written(lobby, crc, client, u))
  {
    hide On, Shown, Settled, Complaint, Player;
    UpdateIsAnswered(lobby, crc, client.agent, u);
  }
}
