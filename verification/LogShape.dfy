/**
 The shape of the broadcast log, told by a spectator that sees nothing but the log and accepts an update
 only where it belongs: full countdowns, at most one start per game, frames numbered from one, one ending.
 */
module LogShape {
  import opened Bytes
  import opened Text
  import opened Frames
  import opened Actions
  import opened GameTunnel
  import opened Rosters
  import opened RoomModel
  import RoomInvariant
  import opened Protocol
  import Server
  import Refinement

  datatype Stage =
    | Idle
    | Counting(remaining: u8)
    | Leaving
    | Running
    | Over

  /** `loaded` and `gone` are the players of the current game; `last` numbers its latest frame. */
  datatype Spectator = Spectator(stage: Stage, loaded: set<u8>, gone: set<u8>, last: u64)

  const AT_REST := Spectator(Idle, {}, {}, 0)

  predicate InGame(stage: Stage)
  {
    stage == Running || stage == Over
  }

  predicate Accepts(cfg: Config, o: Spectator, u: Update)
  {
    match u
    case Chat(from, message) => ValidChatMessage(message) && o.stage != Leaving
    case RosterUpdate(_) => o.stage == Idle || o.stage.Counting?
    case CountdownCancelled => o.stage == Leaving
    case CountdownUpdate(remaining) =>
      || (o.stage == Idle && remaining == cfg.initialSeconds)
      || (o.stage.Counting? && o.stage.remaining > cfg.stepSeconds
          && remaining == o.stage.remaining - cfg.stepSeconds)
    case Start => o.stage.Counting? && o.stage.remaining <= cfg.stepSeconds
    case PlayerLoaded(p) => o.stage == Running && o.last == 0 && p !in o.loaded && p !in o.gone
    case GameFrame(sequence, frame) =>
      o.stage == Running && o.last < U64_MAX && sequence == o.last + 1 && ProperSlot(cfg, frame, o.loaded)
    case GameEnded(_) => o.stage == Running
    case PlayerLeft(p, _, roster) => InGame(o.stage) && p !in o.gone
  }

  function Observe(o: Spectator, u: Update): (o': Spectator)
  {
    match u
    case RosterUpdate(_) => if o.stage.Counting? then o.(stage := Leaving) else o
    case CountdownCancelled => AT_REST
    case CountdownUpdate(remaining) => o.(stage := Counting(remaining))
    case Start => Spectator(Running, {}, {}, 0)
    case PlayerLoaded(p) => o.(loaded := o.loaded + {p})
    case GameFrame(sequence, _) => o.(last := sequence)
    case GameEnded(_) => o.(stage := Over)
    case PlayerLeft(p, _, roster) =>
      if roster.players == [] then AT_REST else o.(loaded := o.loaded - {p}, gone := o.gone + {p})
    case Chat(_, _) => o
  }

  /** The spectator after the whole log, if it accepted every update. */
  function Watch(cfg: Config, o: Spectator, log: seq<Update>): (r: Option<Spectator>)
    decreases |log|
  {
    if log == [] then Some(o)
    else if Accepts(cfg, o, log[0]) then Watch(cfg, Observe(o, log[0]), log[1..])
    else None
  }

  lemma {:induction false} WatchAppend(cfg: Config, o: Spectator, a: seq<Update>, b: seq<Update>)
    ensures Watch(cfg, o, a + b) ==
              if Watch(cfg, o, a).Some? then Watch(cfg, Watch(cfg, o, a).value, b) else None
    decreases |a|
  {
    hide Accepts, Observe;
    if a == [] {
      assert a + b == b;
    } else {
      assert (a + b)[1..] == a[1..] + b;
      WatchAppend(cfg, Observe(o, a[0]), a[1..], b);
    }
  }

  /** What the spectator believes about a protocol state. */
  predicate Believes(st: State, o: Spectator)
  {
    match st.phase
    case Waiting => o == AT_REST
    case Countdown(r) => o == AT_REST.(stage := Counting(r))
    case Loading => InTouch(st, o) && o.stage == Running && o.last == 0
    case Playing => InTouch(st, o) && o.stage == Running && o.last == st.frames
    case Ended => InTouch(st, o) && o.stage == Over
  }

  /** It knows who has loaded, and everyone it saw leave has left. */
  predicate InTouch(st: State, o: Spectator)
  {
    && (forall p | p in o.gone :: p !in st.members)
    && (forall p | p in st.members :: p in o.loaded <==> st.members[p].loaded)
    && (forall p | p in o.loaded :: p in st.members)
  }

  lemma RosterEmpty(cfg: Config, st: State, revision: u64, p: u8)
    requires WellFormed(cfg, st)
    ensures RosterOf(revision, NamesOf(st.members - {p})).players == [] <==> st.members - {p} == map[]
  {
    var names := NamesOf(st.members - {p});
    EmptyListing(names, 1);
    forall q | q in names ensures q >= 1 {
      assert GoodMember(cfg, st, q);
    }
  }

  lemma EventIsObserved(cfg: Config, st: State, e: Event, o: Spectator)
    requires Allowed(cfg, st, e) && WellFormed(cfg, st) && Believes(st, o) && !e.Slot? && !e.Depart?
    ensures var sent := Sent(cfg, st, e);
            && |sent| <= 1
            && (|sent| == 1 ==> Accepts(cfg, o, sent[0]) && Believes(Apply(cfg, st, e), Observe(o, sent[0])))
            && (sent == [] ==> Believes(Apply(cfg, st, e), o))
  {
    hide LeastFree, ProperSlot, GoodMember;
  }

  lemma ProperSlotWidens(cfg: Config, frame: seq<u8>, present: set<u8>, wider: set<u8>)
    requires ProperSlot(cfg, frame, present) && present <= wider
    ensures ProperSlot(cfg, frame, wider)
  {
  }

  lemma SlotIsObserved(cfg: Config, st: State, frame: seq<u8>, o: Spectator)
    requires Allowed(cfg, st, Slot(frame)) && WellFormed(cfg, st) && Believes(st, o)
    ensures var u := GameFrame(st.frames + 1, frame);
            && Sent(cfg, st, Slot(frame)) == [u]
            && Accepts(cfg, o, u) && Believes(Apply(cfg, st, Slot(frame)), Observe(o, u))
  {
    hide ProperSlot, GoodMember;
    ProperSlotWidens(cfg, frame, st.members.Keys, o.loaded);
  }

  lemma DepartureInGame(cfg: Config, st: State, p: u8, reason: LeaveReason, o: Spectator)
    requires Allowed(cfg, st, Depart(p, reason)) && WellFormed(cfg, st) && Believes(st, o)
    requires st.phase != Waiting && !st.phase.Countdown?
    ensures var sent := Sent(cfg, st, Depart(p, reason));
            |sent| == 1 && Accepts(cfg, o, sent[0]) && Believes(Apply(cfg, st, Depart(p, reason)), Observe(o, sent[0]))
  {
    hide ProperSlot, GoodMember, Listing;
    RosterEmpty(cfg, st, SaturatingIncrement(st.revision), p);
  }

  lemma DepartureInLobby(cfg: Config, st: State, p: u8, reason: LeaveReason, o: Spectator)
    requires Allowed(cfg, st, Depart(p, reason)) && WellFormed(cfg, st) && Believes(st, o)
    requires st.phase == Waiting || st.phase.Countdown?
    ensures Watch(cfg, o, Sent(cfg, st, Depart(p, reason))) == Some(AT_REST)
    ensures Believes(Apply(cfg, st, Depart(p, reason)), AT_REST)
  {
    hide GoodMember, Listing;
    var sent := Sent(cfg, st, Depart(p, reason));
    var o1 := Observe(o, sent[0]);
    if st.phase == Waiting {
      assert sent[1..] == [];
    } else {
      assert sent[1..][1..] == [];
      assert Watch(cfg, o1, sent[1..]) == Watch(cfg, AT_REST, []);
    }
  }

  /** One event later the spectator is still in agreement. */
  lemma EventIsWatched(cfg: Config, st: State, e: Event, o: Spectator)
    requires Allowed(cfg, st, e) && WellFormed(cfg, st) && Believes(st, o)
    ensures var o' := Watch(cfg, o, Sent(cfg, st, e)); o'.Some? && Believes(Apply(cfg, st, e), o'.value)
  {
    hide ProperSlot, WellFormed, InTouch, LeastFree;
    var sent := Sent(cfg, st, e);
    if e.Slot? {
      hide Observe, Accepts, Sent, Apply, Allowed, Believes;
      SlotIsObserved(cfg, st, e.frame, o);
      assert sent[1..] == [];
    } else if e.Depart? && st.phase != Waiting && !st.phase.Countdown? {
      hide Observe, Accepts, Sent, Apply, Allowed, Believes;
      DepartureInGame(cfg, st, e.player, e.reason, o);
      assert sent[1..] == [];
    } else if e.Depart? {
      hide Observe, Accepts, Sent, Apply, Allowed, Believes, Watch;
      DepartureInLobby(cfg, st, e.player, e.reason, o);
    } else {
      hide Observe, Accepts, Sent, Apply, Allowed, Believes;
      EventIsObserved(cfg, st, e, o);
      assert |sent| == 1 ==> sent[1..] == [];
    }
  }

  lemma {:induction false} RunIsWatched(cfg: Config, st: State, log: seq<Update>, events: seq<Event>,
                                        st': State, log': seq<Update>, o: Spectator)
    requires Leads(cfg, st, log, events, st', log') && WellFormed(cfg, st) && Believes(st, o)
    requires Watch(cfg, AT_REST, log) == Some(o)
    ensures var o' := Watch(cfg, AT_REST, log'); o'.Some? && Believes(st', o'.value)
    ensures WellFormed(cfg, st')
    decreases |events|
  {
    hide Allowed, Sent, Apply, Believes, WellFormed, Watch;
    if events != [] {
      EventIsWatched(cfg, st, events[0], o);
      EventKeepsWellFormed(cfg, st, events[0]);
      WatchAppend(cfg, AT_REST, log, Sent(cfg, st, events[0]));
      RunIsWatched(cfg, Apply(cfg, st, events[0]), log + Sent(cfg, st, events[0]), events[1..], st', log',
                   Watch(cfg, o, Sent(cfg, st, events[0])).value);
    }
  }

  /** Every log of every run of the server has the expected shape, and tells the phase the room is in. */
  lemma ServerLogHasShape(cfg: Config, revision: u64, steps: seq<Server.Step>)
    requires cfg.Valid() && revision >= 1
    ensures var w := Server.WorldAfter(cfg, revision, steps);
            var o := Watch(cfg, AT_REST, w.log);
            o.Some? && Believes(Refinement.Abs(w), o.value)
  {
    hide Leads, Server.WorldAfter, Refinement.Sound, Refinement.Abs;
    var w := Server.WorldAfter(cfg, revision, steps);
    Refinement.ServerFollowsProtocol(cfg, revision, steps);
    RunIsWatched(cfg, Initial(revision), [], w.history.events, Refinement.Abs(w), w.log, AT_REST);
  }

  // What an accepted log says.

  function NoChat(log: seq<Update>): (updates: seq<Update>)
  {
    if log == [] then []
    else NoChat(log[..|log| - 1]) + if log[|log| - 1].Chat? then [] else [log[|log| - 1]]
  }

  /** The countdown from its initial value down to `remaining`. */
  function Down(cfg: Config, remaining: u8): (updates: seq<Update>)
    requires cfg.stepSeconds > 0
    decreases 0x100 - remaining
  {
    if remaining + cfg.stepSeconds > cfg.initialSeconds then [CountdownUpdate(remaining)]
    else Down(cfg, remaining + cfg.stepSeconds) + [CountdownUpdate(remaining)]
  }

  predicate EndsWith(updates: seq<Update>, tail: seq<Update>)
  {
    |tail| <= |updates| && updates[|updates| - |tail|..] == tail
  }

  lemma EndsWithMore(updates: seq<Update>, tail: seq<Update>, u: Update)
    requires EndsWith(updates, tail)
    ensures EndsWith(updates + [u], tail + [u])
  {
  }

  /** Watching a log is watching all but its last update, and then that one. */
  lemma LastUpdate(cfg: Config, log: seq<Update>)
    requires log != [] && Watch(cfg, AT_REST, log).Some?
    ensures var o := Watch(cfg, AT_REST, log[..|log| - 1]);
            && o.Some? && Accepts(cfg, o.value, log[|log| - 1])
            && Watch(cfg, AT_REST, log) == Some(Observe(o.value, log[|log| - 1]))
  {
    hide Accepts, Observe;
    var a, u := log[..|log| - 1], log[|log| - 1];
    assert a + [u] == log;
    assert [u][1..] == [];
    WatchAppend(cfg, AT_REST, a, [u]);
  }

  lemma {:induction false} CountingTrace(cfg: Config, log: seq<Update>)
    requires cfg.Valid() && Watch(cfg, AT_REST, log).Some? && Watch(cfg, AT_REST, log).value.stage.Counting?
    ensures var r := Watch(cfg, AT_REST, log).value.stage.remaining;
            && 1 <= r <= cfg.initialSeconds && RoomInvariant.WholeSteps(r, cfg.stepSeconds)
            && EndsWith(NoChat(log), Down(cfg, r))
    decreases |log|
  {
    hide Watch, Down, NoChat;
    LastOfNothing(cfg, log);
    LastUpdate(cfg, log);
    var before, u := log[..|log| - 1], log[|log| - 1];
    var o := Watch(cfg, AT_REST, before).value;
    LastOfNoChat(log);
    if o.stage.Counting? {
      CountingTrace(cfg, before);
      if u.CountdownUpdate? {
        DownStep(cfg, u.remaining);
        EndsWithMore(NoChat(before), Down(cfg, o.stage.remaining), u);
      }
    } else {
      RoomInvariant.InitialIsWhole(cfg);
      DownStep(cfg, cfg.initialSeconds);
    }
  }

  lemma LastOfNoChat(log: seq<Update>)
    requires log != []
    ensures NoChat(log) == NoChat(log[..|log| - 1]) + if log[|log| - 1].Chat? then [] else [log[|log| - 1]]
  {
  }

  lemma DownStep(cfg: Config, remaining: u8)
    requires cfg.stepSeconds > 0
    ensures Down(cfg, remaining) ==
              if remaining + cfg.stepSeconds > cfg.initialSeconds then [CountdownUpdate(remaining)]
              else Down(cfg, remaining + cfg.stepSeconds) + [CountdownUpdate(remaining)]
  {
  }

  lemma LastOfNothing(cfg: Config, log: seq<Update>)
    requires Watch(cfg, AT_REST, log).Some? && Watch(cfg, AT_REST, log).value.stage != Idle
    ensures log != []
  {
  }

  /** Chat aside, a start directly follows a whole countdown: initial, initial - step, ..., step. */
  lemma StartFollowsWholeCountdown(cfg: Config, log: seq<Update>, i: nat)
    requires cfg.Valid() && Watch(cfg, AT_REST, log).Some? && i < |log| && log[i] == Start
    ensures EndsWith(NoChat(log[..i]), Down(cfg, cfg.stepSeconds))
  {
    hide Watch;
    PrefixIsWatched(cfg, log, i + 1);
    assert log[..i + 1][..i] == log[..i];
    LastUpdate(cfg, log[..i + 1]);
    CountingTrace(cfg, log[..i]);
  }

  lemma PrefixIsWatched(cfg: Config, log: seq<Update>, n: nat)
    requires n <= |log| && Watch(cfg, AT_REST, log).Some?
    ensures Watch(cfg, AT_REST, log[..n]).Some?
  {
    hide Watch;
    assert log[..n] + log[n..] == log;
    WatchAppend(cfg, AT_REST, log[..n], log[n..]);
  }

  /** The sequence numbers of the frames since the last start. */
  function FrameNumbers(log: seq<Update>): (numbers: seq<u64>)
  {
    if log == [] then []
    else
      var u := log[|log| - 1];
      if u.Start? then []
      else FrameNumbers(log[..|log| - 1]) + if u.GameFrame? then [u.sequence] else []
  }

  /** Within a game frames are numbered 1, 2, 3, ... without gap or repeat. */
  lemma {:induction false} FramesAreNumbered(cfg: Config, log: seq<Update>)
    requires Watch(cfg, AT_REST, log).Some? && InGame(Watch(cfg, AT_REST, log).value.stage)
    ensures |FrameNumbers(log)| == Watch(cfg, AT_REST, log).value.last
    ensures forall i | 0 <= i < |FrameNumbers(log)| :: FrameNumbers(log)[i] == i + 1
    decreases |log|
  {
    hide Watch, ProperSlot;
    LastOfNothing(cfg, log);
    LastUpdate(cfg, log);
    var before, u := log[..|log| - 1], log[|log| - 1];
    if !u.Start? {
      FramesAreNumbered(cfg, before);
    }
  }

  /** The last player of a game leaves. */
  predicate Empties(u: Update)
  {
    u.PlayerLeft? && u.roster.players == []
  }

  predicate NoneEmpties(log: seq<Update>)
  {
    forall i | 0 <= i < |log| :: !Empties(log[i])
  }

  /** A game that has started does not start again, and no countdown runs, before everybody has left. */
  lemma {:induction false} OneStartPerGame(cfg: Config, o: Spectator, log: seq<Update>)
    requires InGame(o.stage) && Watch(cfg, o, log).Some? && NoneEmpties(log)
    ensures forall i | 0 <= i < |log| :: !log[i].Start? && !log[i].CountdownUpdate? && !log[i].RosterUpdate?
    decreases |log|
  {
    hide ProperSlot;
    if log != [] {
      assert !Empties(log[0]);
      assert forall i | 0 <= i < |log[1..]| :: log[1..][i] == log[i + 1];
      OneStartPerGame(cfg, Observe(o, log[0]), log[1..]);
      assert forall i | 0 < i < |log| :: log[i] == log[1..][i - 1];
    }
  }

  /** After the end of a game nothing but chat and departures is published before everybody has left. */
  lemma {:induction false} NothingAfterTheEnd(cfg: Config, o: Spectator, log: seq<Update>)
    requires o.stage == Over && Watch(cfg, o, log).Some? && NoneEmpties(log)
    ensures forall i | 0 <= i < |log| :: log[i].Chat? || log[i].PlayerLeft?
    decreases |log|
  {
    hide ProperSlot;
    if log != [] {
      assert !Empties(log[0]);
      assert forall i | 0 <= i < |log[1..]| :: log[1..][i] == log[i + 1];
      NothingAfterTheEnd(cfg, Observe(o, log[0]), log[1..]);
      assert forall i | 0 < i < |log| :: log[i] == log[1..][i - 1];
    }
  }

  /** The frame decodes to a timeslot without an action of `p`. */
  predicate Silent(cfg: Config, frame: seq<u8>, p: u8)
  {
    var f := DecodeExact(frame, MAX_TUNNELED_FRAME_BYTES);
    && f.Ok?
    && var slot := DecodeTimeslot(cfg.crc, f.value);
       slot.Ok? && forall i | 0 <= i < |slot.value.actions| :: slot.value.actions[i].player != p
  }

  lemma AbsentIsSilent(cfg: Config, frame: seq<u8>, present: set<u8>, p: u8)
    requires ProperSlot(cfg, frame, present) && p !in present
    ensures Silent(cfg, frame, p)
  {
    hide DecodeExact, DecodeTimeslot;
  }

  /** While others play on, no frame carries an action of a player who has left. */
  lemma {:induction false} TheGoneAreSilent(cfg: Config, o: Spectator, log: seq<Update>, p: u8)
    requires p in o.gone && p !in o.loaded && Watch(cfg, o, log).Some? && NoneEmpties(log) && InGame(o.stage)
    ensures forall i | 0 <= i < |log| && log[i].GameFrame? :: Silent(cfg, log[i].frame, p)
    decreases |log|
  {
    hide ProperSlot, Silent;
    if log != [] {
      assert !Empties(log[0]);
      if log[0].GameFrame? {
        AbsentIsSilent(cfg, log[0].frame, o.loaded, p);
      }
      assert forall i | 0 <= i < |log[1..]| :: log[1..][i] == log[i + 1];
      TheGoneAreSilent(cfg, Observe(o, log[0]), log[1..], p);
      assert forall i | 0 < i < |log| :: log[i] == log[1..][i - 1];
    }
  }

  /** Nobody finishes loading twice in a game, nor after its first frame. */
  lemma {:induction false} LoadingIsOnce(cfg: Config, o: Spectator, log: seq<Update>, p: u8)
    requires Watch(cfg, o, log).Some? && NoneEmpties(log) && InGame(o.stage)
    requires p in o.loaded || p in o.gone || o.last > 0
    ensures forall i | 0 <= i < |log| :: log[i] != PlayerLoaded(p)
    decreases |log|
  {
    hide ProperSlot;
    if log != [] {
      assert !Empties(log[0]);
      assert forall i | 0 <= i < |log[1..]| :: log[1..][i] == log[i + 1];
      LoadingIsOnce(cfg, Observe(o, log[0]), log[1..], p);
      assert forall i | 0 < i < |log| :: log[i] == log[1..][i - 1];
    }
  }

  // The same about the server's own logs.

  lemma SuffixIsWatched(cfg: Config, log: seq<Update>, i: nat, j: nat)
    requires i <= j <= |log| && Watch(cfg, AT_REST, log).Some?
    ensures Watch(cfg, AT_REST, log[..i]).Some?
    ensures Watch(cfg, Watch(cfg, AT_REST, log[..i]).value, log[i..j]) == Watch(cfg, AT_REST, log[..j])
    ensures Watch(cfg, AT_REST, log[..j]).Some?
  {
    hide Watch;
    PrefixIsWatched(cfg, log, i);
    PrefixIsWatched(cfg, log, j);
    assert log[..i] + log[i..j] == log[..j];
    WatchAppend(cfg, AT_REST, log[..i], log[i..j]);
  }

  /** Between a start and the moment everybody has left: `log[i..j]` is (part of) one game. */
  predicate OneGame(log: seq<Update>, i: nat, j: nat)
  {
    i < j <= |log| && log[i].Start? && NoneEmpties(log[i..j])
  }

  lemma AfterUpdate(cfg: Config, log: seq<Update>, k: nat)
    requires k < |log| && Watch(cfg, AT_REST, log).Some?
    ensures Watch(cfg, AT_REST, log[..k]).Some? && Watch(cfg, AT_REST, log[..k + 1]).Some?
    ensures var o := Watch(cfg, AT_REST, log[..k]).value;
            Accepts(cfg, o, log[k]) && Watch(cfg, AT_REST, log[..k + 1]).value == Observe(o, log[k])
  {
    hide Watch, Accepts, Observe;
    SuffixIsWatched(cfg, log, k, k + 1);
    assert log[..k + 1][..k] == log[..k];
    LastUpdate(cfg, log[..k + 1]);
  }

  lemma SubGame(log: seq<Update>, i: nat, k: nat, j: nat)
    requires OneGame(log, i, j) && i <= k < j
    ensures !Empties(log[k]) && NoneEmpties(log[k + 1..j]) && OneGame(log, i, k + 1)
  {
    var game := log[i..j];
    assert game[k - i] == log[k];
    assert log[k + 1..j] == game[k + 1 - i..];
    assert log[i..k + 1] == game[..k + 1 - i];
  }

  lemma {:induction false} GameStages(cfg: Config, log: seq<Update>, i: nat, k: nat)
    requires Watch(cfg, AT_REST, log).Some? && OneGame(log, i, k + 1)
    ensures k < |log| && Watch(cfg, AT_REST, log[..k + 1]).Some?
    ensures InGame(Watch(cfg, AT_REST, log[..k + 1]).value.stage)
    ensures Watch(cfg, AT_REST, log[..k + 1]).value.loaded !! Watch(cfg, AT_REST, log[..k + 1]).value.gone
    decreases k
  {
    hide Watch, ProperSlot;
    AfterUpdate(cfg, log, k);
    SubGame(log, i, k, k + 1);
    if i < k {
      SubGame(log, i, k - 1, k + 1);
      GameStages(cfg, log, i, k - 1);
    }
  }

  /** Chat aside, the start of a game directly follows a whole countdown. */
  lemma GameFollowsCountdown(cfg: Config, revision: u64, steps: seq<Server.Step>, i: nat)
    requires cfg.Valid() && revision >= 1
    requires var log := Server.WorldAfter(cfg, revision, steps).log; i < |log| && log[i].Start?
    ensures EndsWith(NoChat(Server.WorldAfter(cfg, revision, steps).log[..i]), Down(cfg, cfg.stepSeconds))
  {
    hide *;
    ServerLogHasShape(cfg, revision, steps);
    StartFollowsWholeCountdown(cfg, Server.WorldAfter(cfg, revision, steps).log, i);
  }

  /**
   While anyone remains a game is not started again, nobody joins and no countdown runs; its frames are 1, 2,
   3, ...
   */
  lemma GameRunsOnce(cfg: Config, revision: u64, steps: seq<Server.Step>, i: nat, j: nat)
    requires cfg.Valid() && revision >= 1
    ensures var log := Server.WorldAfter(cfg, revision, steps).log;
            OneGame(log, i, j) ==>
              && (forall k | i < k < j :: !log[k].Start? && !log[k].CountdownUpdate? && !log[k].RosterUpdate?)
              && (forall n | 0 <= n < |FrameNumbers(log[..j])| :: FrameNumbers(log[..j])[n] == n + 1)
  {
    hide Server.WorldAfter, Watch, Believes, OneGame, FrameNumbers;
    ServerLogHasShape(cfg, revision, steps);
    if OneGame(Server.WorldAfter(cfg, revision, steps).log, i, j) {
      LogRunsOnce(cfg, Server.WorldAfter(cfg, revision, steps).log, i, j);
    }
  }

  lemma LogRunsOnce(cfg: Config, log: seq<Update>, i: nat, j: nat)
    requires Watch(cfg, AT_REST, log).Some? && OneGame(log, i, j)
    ensures forall k | i < k < j :: !log[k].Start? && !log[k].CountdownUpdate? && !log[k].RosterUpdate?
    ensures forall n | 0 <= n < |FrameNumbers(log[..j])| :: FrameNumbers(log[..j])[n] == n + 1
  {
    hide Watch, ProperSlot, NoneEmpties, FrameNumbers, Accepts, Observe;
    SubGame(log, i, j - 1, j);
    GameStages(cfg, log, i, j - 1);
    FramesAreNumbered(cfg, log[..j]);
    SubGame(log, i, i, j);
    GameStages(cfg, log, i, i);
    SuffixIsWatched(cfg, log, i + 1, j);
    var game := log[i + 1..j];
    OneStartPerGame(cfg, Watch(cfg, AT_REST, log[..i + 1]).value, game);
    assert forall k | i < k < j :: log[k] == game[k - i - 1];
  }

  /** The order of updates `k` and `m` of one game. */
  predicate InOrder(cfg: Config, first: Update, second: Update)
  {
    && (first.GameEnded? ==> second.Chat? || second.PlayerLeft?)
    && (first.PlayerLeft? && second.GameFrame? ==> Silent(cfg, second.frame, first.player))
    && (second.PlayerLoaded? ==> first != second && !first.GameFrame?)
  }

  /**
   After the end only chat and departures follow; no frame carries an action of somebody who has left;
   nobody finishes loading twice or after the first frame.
   */
  lemma GameKeepsOrder(cfg: Config, revision: u64, steps: seq<Server.Step>, i: nat, k: nat, m: nat, j: nat)
    requires cfg.Valid() && revision >= 1 && i < k < m < j
    ensures var log := Server.WorldAfter(cfg, revision, steps).log;
            OneGame(log, i, j) ==> InOrder(cfg, log[k], log[m])
  {
    hide Server.WorldAfter, Watch, Believes, InOrder;
    ServerLogHasShape(cfg, revision, steps);
    if OneGame(Server.WorldAfter(cfg, revision, steps).log, i, j) {
      LogKeepsOrder(cfg, Server.WorldAfter(cfg, revision, steps).log, i, k, m, j);
    }
  }

  lemma LogKeepsOrder(cfg: Config, log: seq<Update>, i: nat, k: nat, m: nat, j: nat)
    requires Watch(cfg, AT_REST, log).Some? && OneGame(log, i, j) && i < k < m < j
    ensures InOrder(cfg, log[k], log[m])
  {
    hide Watch, Silent, ProperSlot, NoneEmpties;
    if log[k].GameEnded? {
      EndIsFinal(cfg, log, i, k, m, j);
    }
    if log[k].PlayerLeft? && log[m].GameFrame? {
      LeaverIsSilent(cfg, log, i, k, m, j);
    }
    if log[m].PlayerLoaded? {
      LoadedBefore(cfg, log, i, k, m, j);
    }
  }

  lemma LoadedBefore(cfg: Config, log: seq<Update>, i: nat, k: nat, m: nat, j: nat)
    requires Watch(cfg, AT_REST, log).Some? && OneGame(log, i, j) && i < k < m < j && log[m].PlayerLoaded?
    ensures log[k] != log[m] && !log[k].GameFrame?
  {
    hide Watch, ProperSlot, NoneEmpties;
    SubGame(log, i, k, j);
    GameStages(cfg, log, i, k);
    AfterUpdate(cfg, log, k);
    SuffixIsWatched(cfg, log, k + 1, j);
    assert log[m] == log[k + 1..j][m - k - 1];
    if log[k] == log[m] || log[k].GameFrame? {
      LoadingIsOnce(cfg, Watch(cfg, AT_REST, log[..k + 1]).value, log[k + 1..j], log[m].player);
    }
  }

  lemma EndIsFinal(cfg: Config, log: seq<Update>, i: nat, k: nat, m: nat, j: nat)
    requires Watch(cfg, AT_REST, log).Some? && OneGame(log, i, j) && i < k < m < j && log[k].GameEnded?
    ensures log[m].Chat? || log[m].PlayerLeft?
  {
    hide Watch, ProperSlot, NoneEmpties;
    SubGame(log, i, k, j);
    AfterUpdate(cfg, log, k);
    SuffixIsWatched(cfg, log, k + 1, j);
    NothingAfterTheEnd(cfg, Watch(cfg, AT_REST, log[..k + 1]).value, log[k + 1..j]);
    assert log[m] == log[k + 1..j][m - k - 1];
  }

  lemma LeaverIsSilent(cfg: Config, log: seq<Update>, i: nat, k: nat, m: nat, j: nat)
    requires Watch(cfg, AT_REST, log).Some? && OneGame(log, i, j) && i < k < m < j
    requires log[k].PlayerLeft? && log[m].GameFrame?
    ensures Silent(cfg, log[m].frame, log[k].player)
  {
    hide Watch, ProperSlot, NoneEmpties, Silent;
    SubGame(log, i, k, j);
    GameStages(cfg, log, i, k);
    AfterUpdate(cfg, log, k);
    SuffixIsWatched(cfg, log, k + 1, j);
    TheGoneAreSilent(cfg, Watch(cfg, AT_REST, log[..k + 1]).value, log[k + 1..j], log[k].player);
    assert log[m] == log[k + 1..j][m - k - 1];
  }
}
