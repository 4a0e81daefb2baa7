/** Every roster the server ever publishes passes the validation agents apply, and projects onto the slot table. */
module Published {
  import opened Bytes
  import opened Text
  import opened Rosters
  import opened RoomModel
  import opened Protocol
  import Server
  import Refinement

  predicate ValidUpdate(cfg: Config, u: Update)
  {
    match u
    case RosterUpdate(roster) => ValidRoster(roster, cfg.maximum)
    case PlayerLeft(p, _, roster) => ValidRoster(roster, cfg.maximum) && Player(roster, p).None?
    case _ => true
  }

  predicate AllValid(cfg: Config, log: seq<Update>)
  {
    forall i | 0 <= i < |log| :: ValidUpdate(cfg, log[i])
  }

  predicate ValidTickets(cfg: Config, st: State)
  {
    forall p | p in st.members :: ValidRoster(st.members[p].ticket.roster, cfg.maximum)
  }

  lemma NamesAreValid(cfg: Config, members: Members, revision: u64)
    requires 1 <= cfg.maximum <= MAX_WARCRAFT_PLAYERS && revision >= 1
    requires forall p | p in members :: 1 <= p <= cfg.maximum && ValidPlayerName(members[p].name)
    ensures ValidRoster(RosterOf(revision, NamesOf(members)), cfg.maximum)
  {
    hide ValidPlayerName, Listing;
    ListedRosterIsValid(revision, NamesOf(members), cfg.maximum);
  }

  lemma DepartureIsValid(cfg: Config, st: State, p: u8, reason: LeaveReason)
    requires 1 <= cfg.maximum <= MAX_WARCRAFT_PLAYERS && WellFormed(cfg, st) && Allowed(cfg, st, Depart(p, reason))
    ensures AllValid(cfg, Sent(cfg, st, Depart(p, reason)))
  {
    hide ValidPlayerName, Listing, ValidRoster, Find;
    forall q | q in st.members - {p} ensures 1 <= q <= cfg.maximum && ValidPlayerName(st.members[q].name) {
      assert GoodMember(cfg, st, q);
    }
    var revision := SaturatingIncrement(st.revision);
    NamesAreValid(cfg, st.members - {p}, revision);
    PlayerOfRoster(revision, NamesOf(st.members - {p}), p);
  }

  lemma EnterIsValid(cfg: Config, st: State, name: string)
    requires 1 <= cfg.maximum <= MAX_WARCRAFT_PLAYERS && WellFormed(cfg, st) && ValidTickets(cfg, st)
    requires Allowed(cfg, st, Enter(name))
    ensures ValidTickets(cfg, Apply(cfg, st, Enter(name)))
  {
    hide ValidPlayerName, Listing, ValidRoster, LeastFree;
    LeastFreeInRange(st.members.Keys, 1, cfg.maximum);
    var id := LeastFree(st.members.Keys, 1, cfg.maximum).value;
    var st' := Apply(cfg, st, Enter(name));
    forall q | q in st'.members ensures 1 <= q <= cfg.maximum && ValidPlayerName(st'.members[q].name) {
      assert q in st.members ==> GoodMember(cfg, st, q);
    }
    assert NamesOf(st'.members) == NamesOf(st.members)[id := name];
    NamesAreValid(cfg, st'.members, st'.revision);
  }

  lemma EventIsValid(cfg: Config, st: State, e: Event)
    requires 1 <= cfg.maximum <= MAX_WARCRAFT_PLAYERS && WellFormed(cfg, st) && ValidTickets(cfg, st)
    requires Allowed(cfg, st, e)
    ensures AllValid(cfg, Sent(cfg, st, e)) && ValidTickets(cfg, Apply(cfg, st, e))
  {
    hide ValidPlayerName, Listing, ValidRoster, LeastFree, ProperSlot, WellFormed, Find;
    if e.Enter? {
      hide Apply, Allowed;
      EnterIsValid(cfg, st, e.name);
    } else if e.Depart? {
      DepartureIsValid(cfg, st, e.player, e.reason);
    }
  }

  lemma {:induction false} RunIsValid(cfg: Config, st: State, log: seq<Update>, events: seq<Event>, st': State,
                                      log': seq<Update>)
    requires 1 <= cfg.maximum <= MAX_WARCRAFT_PLAYERS && WellFormed(cfg, st) && ValidTickets(cfg, st)
        && AllValid(cfg, log)
    requires Leads(cfg, st, log, events, st', log')
    ensures AllValid(cfg, log') && ValidTickets(cfg, st')
    decreases |events|
  {
    hide Allowed, Apply, Sent, WellFormed, ValidTickets;
    if events != [] {
      EventIsValid(cfg, st, events[0]);
      EventKeepsWellFormed(cfg, st, events[0]);
      RunIsValid(cfg, Apply(cfg, st, events[0]), log + Sent(cfg, st, events[0]), events[1..], st', log');
    }
  }

  /** No run publishes a roster that fails validation; a departure's roster no longer lists the departed. */
  lemma PublishedRostersAreValid(cfg: Config, revision: u64, steps: seq<Server.Step>)
    requires cfg.Valid() && cfg.maximum >= 1 && revision >= 1
    ensures AllValid(cfg, Server.WorldAfter(cfg, revision, steps).log)
  {
    hide Server.WorldAfter, Leads;
    var w := Server.WorldAfter(cfg, revision, steps);
    Refinement.ServerFollowsProtocol(cfg, revision, steps);
    RunIsValid(cfg, Initial(revision), [], w.history.events, Refinement.Abs(w), w.log);
  }
}
