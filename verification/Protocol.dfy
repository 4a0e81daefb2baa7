/**
 The lobby as its clients may rely on it: five phases, a member table, and the events that may
 happen in each phase together with what they broadcast. It knows nothing of flags, generations,
 timers or queues; the room is proved to follow it, and agents are proved against it.
 */
module Protocol {
  import opened Bytes
  import opened Text
  import opened Frames
  import opened Actions
  import opened GameTunnel
  import opened Rosters
  import opened RoomModel
  import RoomInvariant

  /** What a joiner was told, and how many updates had been broadcast when it took its seat. */
  datatype Ticket = Ticket(roster: Roster, since: nat)

  datatype Member = Member(session: u64, name: string, loaded: bool, announced: bool, ticket: Ticket)

  type Members = map<u8, Member>

  datatype State = State(
    phase: LobbyPhase,
    revision: u64,
    nextSession: u64,
    members: Members,
    frames: u64,
    emitted: nat)

  datatype Event =
    | Enter(name: string)
    | Announce(player: u8)
    | Say(player: u8, message: string)
    | BeginCountdown
    | Tick
    | Begin
    | Load(player: u8)
    | Play
    | Slot(frame: seq<u8>)
    | End(cause: EndReason)
    | Depart(player: u8, reason: LeaveReason)

  function Initial(revision: u64): (st: State)
  {
    State(Waiting, revision, 1, map[], 0, 0)
  }

  function NamesOf(members: Members): (names: map<u8, string>)
    ensures names.Keys == members.Keys
  {
    map p | p in members :: members[p].name
  }

  predicate AllAnnounced(members: Members)
  {
    forall p | p in members :: members[p].announced
  }

  predicate EveryoneLoaded(members: Members)
  {
    forall p | p in members :: members[p].loaded
  }

  /** The bytes of one timeslot whose actions all come from present players. */
  predicate ProperSlot(cfg: Config, frame: seq<u8>, present: set<u8>)
  {
    var f := DecodeExact(frame, MAX_TUNNELED_FRAME_BYTES);
    && f.Ok?
    && var slot := DecodeTimeslot(cfg.crc, f.value);
       && slot.Ok?
       && forall i | 0 <= i < |slot.value.actions| :: slot.value.actions[i].player in present
  }

  predicate Allowed(cfg: Config, st: State, e: Event)
  {
    match e
    case Enter(name) =>
      && st.phase == Waiting
      && |st.members| < cfg.maximum
      && ValidPlayerName(name)
      && (forall p | p in st.members :: st.members[p].name != name)
      && LeastFree(st.members.Keys, 1, cfg.maximum).Some?
      && st.nextSession < U64_MAX
    case Announce(p) => st.phase == Waiting && p in st.members && !st.members[p].announced
    case Say(p, message) => p in st.members && st.members[p].announced && ValidChatMessage(message)
    case BeginCountdown => st.phase == Waiting && st.members != map[] && AllAnnounced(st.members)
    case Tick => st.phase.Countdown? && st.phase.remaining > cfg.stepSeconds
    case Begin => st.phase.Countdown? && st.phase.remaining <= cfg.stepSeconds
    case Load(p) => st.phase == Loading && p in st.members && !st.members[p].loaded
    case Play => st.phase == Loading && |st.members| >= MINIMUM_PLAYERS && EveryoneLoaded(st.members)
    case Slot(frame) => st.phase == Playing && st.frames < U64_MAX && ProperSlot(cfg, frame, st.members.Keys)
    case End(cause) => st.phase == Loading || st.phase == Playing
    case Depart(p, reason) => p in st.members && st.members[p].announced
  }

  function Entered(cfg: Config, st: State, name: string): (members: Members)
    requires Allowed(cfg, st, Enter(name))
  {
    var id := LeastFree(st.members.Keys, 1, cfg.maximum).value;
    var roster := RosterOf(SaturatingIncrement(st.revision), NamesOf(st.members)[id := name]);
    st.members[id := Member(st.nextSession, name, false, false, Ticket(roster, st.emitted))]
  }

  function Sent(cfg: Config, st: State, e: Event): (sent: seq<Update>)
    requires Allowed(cfg, st, e)
  {
    match e
    case Enter(_) => []
    case Announce(p) => [RosterUpdate(st.members[p].ticket.roster)]
    case Say(p, message) => [Chat(p, message)]
    case BeginCountdown => [CountdownUpdate(cfg.initialSeconds)]
    case Tick => [CountdownUpdate(st.phase.remaining - cfg.stepSeconds)]
    case Begin => [Start]
    case Load(p) => [PlayerLoaded(p)]
    case Play => []
    case Slot(frame) => [GameFrame(st.frames + 1, frame)]
    case End(cause) => [GameEnded(cause)]
    case Depart(p, reason) =>
      var roster := RosterOf(SaturatingIncrement(st.revision), NamesOf(st.members - {p}));
      match st.phase
      case Waiting => [RosterUpdate(roster)]
      case Countdown(_) => [RosterUpdate(roster), CountdownCancelled]
      case _ => [PlayerLeft(p, reason, roster)]
  }

  function Apply(cfg: Config, st: State, e: Event): (st': State)
    requires Allowed(cfg, st, e)
  {
    Moved(cfg, st, e).(emitted := st.emitted + |Sent(cfg, st, e)|)
  }

  function Moved(cfg: Config, st: State, e: Event): (st': State)
    requires Allowed(cfg, st, e)
  {
    match e
    case Enter(name) =>
      st.(members := Entered(cfg, st, name), nextSession := st.nextSession + 1,
          revision := SaturatingIncrement(st.revision))
    case Announce(p) => st.(members := st.members[p := st.members[p].(announced := true)])
    case Say(_, _) => st
    case BeginCountdown => st.(phase := Countdown(cfg.initialSeconds))
    case Tick => st.(phase := Countdown(st.phase.remaining - cfg.stepSeconds))
    case Begin => st.(phase := Loading)
    case Load(p) => st.(members := st.members[p := st.members[p].(loaded := true)])
    case Play => st.(phase := Playing, frames := 0)
    case Slot(_) => st.(frames := st.frames + 1)
    case End(_) => st.(phase := Ended)
    case Depart(p, _) =>
      var members := st.members - {p};
      var empty := members == map[];
      st.(members := members, revision := SaturatingIncrement(st.revision),
          phase := if empty || st.phase.Countdown? then Waiting else st.phase,
          frames := if empty then 0 else st.frames)
  }

  /** `events` are allowed one after the other and lead from one state and log to another. */
  predicate Leads(cfg: Config, st: State, log: seq<Update>, events: seq<Event>, st': State, log': seq<Update>)
    decreases |events|
  {
    if events == [] then st' == st && log' == log
    else
      && Allowed(cfg, st, events[0])
      && Leads(cfg, Apply(cfg, st, events[0]), log + Sent(cfg, st, events[0]), events[1..], st', log')
  }

  lemma SingleEvent(cfg: Config, st: State, log: seq<Update>, e: Event)
    requires Allowed(cfg, st, e)
    ensures Leads(cfg, st, log, [e], Apply(cfg, st, e), log + Sent(cfg, st, e))
  {
    assert Leads(cfg, Apply(cfg, st, e), log + Sent(cfg, st, e), [], Apply(cfg, st, e), log + Sent(cfg, st, e));
  }

  lemma Stay(cfg: Config, st: State, log: seq<Update>)
    ensures Leads(cfg, st, log, [], st, log)
  {
  }

  lemma Prefix(cfg: Config, st: State, log: seq<Update>, e: Event, events: seq<Event>, st': State, log': seq<Update>)
    requires Allowed(cfg, st, e)
    requires Leads(cfg, Apply(cfg, st, e), log + Sent(cfg, st, e), events, st', log')
    ensures Leads(cfg, st, log, [e] + events, st', log')
  {
    hide Allowed, Apply, Sent;
    assert ([e] + events)[1..] == events;
  }

  lemma {:induction false} Chain(cfg: Config, st: State, log: seq<Update>, a: seq<Event>, st1: State, log1: seq<Update>,
                                 b: seq<Event>, st2: State, log2: seq<Update>)
    requires Leads(cfg, st, log, a, st1, log1) && Leads(cfg, st1, log1, b, st2, log2)
    ensures Leads(cfg, st, log, a + b, st2, log2)
    decreases |a|
  {
    hide Allowed, Apply, Sent;
    if a == [] {
      assert a + b == b;
    } else {
      assert (a + b)[1..] == a[1..] + b;
      Chain(cfg, Apply(cfg, st, a[0]), log + Sent(cfg, st, a[0]), a[1..], st1, log1, b, st2, log2);
    }
  }

  /** The edges of the phase diagram. */
  predicate Edge(before: LobbyPhase, after: LobbyPhase)
  {
    || before == after
    || (before == Waiting && after.Countdown?)
    || (before.Countdown? && after.Countdown? && after.remaining < before.remaining)
    || (before.Countdown? && after == Loading)
    || (before == Loading && after == Playing)
    || ((before == Loading || before == Playing) && after == Ended)
    || after == Waiting
  }

  lemma EventsFollowEdges(cfg: Config, st: State, e: Event)
    requires Allowed(cfg, st, e) && cfg.Valid()
    ensures Edge(st.phase, Apply(cfg, st, e).phase)
    ensures st.phase != Waiting && Apply(cfg, st, e).phase == Waiting ==>
              e.Depart? && (st.phase.Countdown? || Apply(cfg, st, e).members == map[])
  {
  }

  // What every reachable protocol state satisfies.

  predicate GoodMember(cfg: Config, st: State, p: u8)
    requires p in st.members
  {
    1 <= p <= cfg.maximum && ValidPlayerName(st.members[p].name) && st.members[p].session < st.nextSession
  }

  /** Past the waiting phase everybody has been announced; loading comes after the start, frames after loading. */
  predicate PhaseOrder(st: State)
  {
    && (st.phase != Waiting ==> st.members != map[] && AllAnnounced(st.members))
    && (st.phase == Waiting || st.phase.Countdown? ==> forall p | p in st.members :: !st.members[p].loaded)
    && (st.phase == Playing ==> EveryoneLoaded(st.members))
    && (st.phase != Playing && st.phase != Ended ==> st.frames == 0)
  }

  predicate WellFormed(cfg: Config, st: State)
  {
    && st.revision >= 1
    && (forall p | p in st.members :: GoodMember(cfg, st, p))
    && PhaseOrder(st)
  }

  lemma EventKeepsMembers(cfg: Config, st: State, e: Event)
    requires Allowed(cfg, st, e) && forall p | p in st.members :: GoodMember(cfg, st, p)
    ensures var st' := Apply(cfg, st, e); forall p | p in st'.members :: GoodMember(cfg, st', p)
  {
    hide LeastFree, ProperSlot, ValidPlayerName, ValidChatMessage;
    var st' := Apply(cfg, st, e);
    if e.Enter? {
      LeastFreeInRange(st.members.Keys, 1, cfg.maximum);
    }
    forall p | p in st'.members ensures GoodMember(cfg, st', p) {
      assert p in st.members ==> GoodMember(cfg, st, p);
    }
  }

  lemma LeastFreeInRange(taken: set<u8>, candidate: nat, maximum: u8)
    requires candidate <= maximum + 1
    ensures var id := LeastFree(taken, candidate, maximum);
            id.Some? ==> candidate <= id.value <= maximum && id.value !in taken
  {
    RoomInvariant.LeastFreeIsLeast(taken, candidate, maximum);
  }

  lemma EventKeepsOrder(cfg: Config, st: State, e: Event)
    requires Allowed(cfg, st, e) && PhaseOrder(st)
    ensures PhaseOrder(Apply(cfg, st, e))
  {
    hide LeastFree, ProperSlot, ValidPlayerName, ValidChatMessage;
  }

  lemma EventKeepsWellFormed(cfg: Config, st: State, e: Event)
    requires Allowed(cfg, st, e) && WellFormed(cfg, st)
    ensures WellFormed(cfg, Apply(cfg, st, e))
  {
    hide Allowed, GoodMember, PhaseOrder, Sent;
    EventKeepsMembers(cfg, st, e);
    EventKeepsOrder(cfg, st, e);
  }

  /** No member holds this session, and no newcomer will be given it. */
  predicate Gone(st: State, session: u64)
  {
    session < st.nextSession && forall p | p in st.members :: st.members[p].session != session
  }

  lemma EventKeepsGone(cfg: Config, st: State, e: Event, session: u64)
    requires Allowed(cfg, st, e) && Gone(st, session)
    ensures Gone(Apply(cfg, st, e), session)
  {
    hide LeastFree, ProperSlot;
  }

  lemma {:induction false} GoneForever(cfg: Config, st: State, log: seq<Update>, events: seq<Event>,
                                       st': State, log': seq<Update>, session: u64)
    requires Leads(cfg, st, log, events, st', log') && Gone(st, session)
    ensures Gone(st', session)
    decreases |events|
  {
    hide Allowed, Apply, Sent, Gone;
    if events != [] {
      EventKeepsGone(cfg, st, events[0], session);
      GoneForever(cfg, Apply(cfg, st, events[0]), log + Sent(cfg, st, events[0]), events[1..], st', log', session);
    }
  }
}
