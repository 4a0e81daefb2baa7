# Strajer: the lobby and game protocol, verified

Strajer lets Warcraft III players share a lobby over the internet. A server owns each lobby room; every
player runs an agent that speaks the game's own W3GS protocol to a local Warcraft and a session protocol
to the server. This project models that protocol end to end and proves what it promises over every
interleaving of client calls, late sends and timers.

## How it is organised

The room (server side):

- `RoomModel.dfy`: the record behind the room's lock and, as functions on values, what every critical
  section does to it. `LobbyRoom.dfy`: the class that does it, field by field and loop by loop, each method
  proved equal to its function and to keep the room valid. `Consensus.dfy`: what comparing checksum queues should find.
- `Server.dfy`: the concurrent system. A step is one critical section, one send made after the lock was
  released, or one wake-up of a detached task; `WorldAfter` runs any sequence of steps. A history records what
  the room forgets (accepted actions, submitted checksums, completed ticks).
- `Protocol.dfy`: the five-phase protocol clients may rely on, without flags, generations or queues.
- `RoomInvariant.dfy`, `Tasks.dfy`, `Refinement.dfy`: the invariants of single sections, the order of task
  generations, and the proof that every run of the server is a run of the protocol.
- `Answers.dfy`: what every call is answered and then does, acceptance and each refusal. `Progress.dfy`: what
  readiness, start requests, loading reports and woken tasks bring about, in whatever order.
- Theorems over all runs: `Timers.dfy` (stale tasks, nobody forgotten, progress), `Sessions.dfy`,
  `Published.dfy` (rosters), `LogShape.dfy` (what a log can look like), `FirstFrame.dfy` (what precedes a
  frame), `GameFlow.dfy` (first in, first out, and game time), `Rounds.dfy` (desync detection).

The agent:

- `AgentModel.dfy`: its reaction to every update, and a Warcraft that tolerates no second introduction of a
  player and no mention of one it does not know, in chat, loading, leaving, game over or a timeslot's actions. `AgentSession.dfy`: the session as a class. `WarcraftView.dfy`: Warcraft's player table.
- `Compatibility.dfy`: no agent ever rejects an update the server broadcasts after its join, and its view
  and Warcraft's tables agree with the server. `AgentRuns.dfy`: the same read off the room during a game, and
  how often a player's own loading is confirmed to it. `Sequences.dfy`: the agent's frame numbers are the ones
  the room expects.
- `AgentAnswers.dfy`: the complaint each update deserves, or what Warcraft is shown for it. `Scenes.dfy`: over
  whole runs Warcraft is shown what the log calls for. `Introductions.dfy`: nobody is introduced by halves.
- `Slots.dfy`, `MapModel.dfy`, `MapTransfer.dfy`, `MapProgress.dfy`, `GameInput.dfy`: slot projection, map
  transfer and its completion, input.

Encodings: `Bytes.dfy`, `Text.dfy`, `Frames.dfy`, `FrameStream.dfy`, `GameTunnel.dfy`, `Actions.dfy`,
`Batching.dfy`, `Rosters.dfy`, `StatString.dfy`, `GameData.dfy`.

CRC-32 is a parameter, so every theorem holds for any checksum routine. Clocks are parameters (`now` of a
chat message, the expiry flags of a map transfer) or the freedom to wake a task at any moment. Counters are
64 bits wide and their exhaustion is modelled; theorems that need a counter below its ceiling say so.

Where documentation and code differ the code is followed: docs/architecture.md:50-52 says a loaded
confirmation goes to the other sessions only, without an echo to the local player, but
apps/strajer-server/src/http.rs:326-328 forwards it to every session and the agent reports it to its own
Warcraft too. `AgentRuns.OwnLoadingIsEchoed` shows when (exactly on the first report of the own player), and
`AgentRuns.OwnLoadingReachesWarcraft` that in every run this happens exactly once for whoever has loaded.

## Model

| member | source | states |
|---|---|---|
| LobbyRoomServer.LobbyRoom.Join | apps/strajer-server/src/lobby.rs:122-179 | a join does to the room, answers and leaves to be sent exactly what the join function says, refusals in the order of the source |
| LobbyRoomServer.LobbyRoom.MarkReady | apps/strajer-server/src/lobby.rs:181-210 | becoming ready, and the countdown that the last ready player starts |
| LobbyRoomServer.LobbyRoom.BeginCountdown | apps/strajer-server/src/lobby.rs:586-599 | a countdown begins under the next generation at the full time, or fails at the ceiling and changes nothing |
| LobbyRoomServer.LobbyRoom.MarkLoaded | apps/strajer-server/src/lobby.rs:212-241 | loading is announced once and the last player to load begins the game |
| LobbyRoomServer.LobbyRoom.BeginGameplayIfReady | apps/strajer-server/src/lobby.rs:464-484 | gameplay begins under a new generation with sequence zero exactly when every one of two or more players has loaded |
| LobbyRoomServer.LobbyRoom.AcceptGameSequence | apps/strajer-server/src/lobby.rs:830-851 | only the next sequence number is accepted, and nothing changes otherwise |
| LobbyRoomServer.LobbyRoom.SubmitAction | apps/strajer-server/src/lobby.rs:243-270 | an accepted action joins the end of the queue; every refusal leaves the room unchanged |
| LobbyRoomServer.LobbyRoom.SubmitKeepAlive | apps/strajer-server/src/lobby.rs:272-306 | a checksum joins its player's queue and complete rounds are judged |
| LobbyRoomServer.LobbyRoom.ConsumeChecksumConsensus | apps/strajer-server/src/lobby.rs:853-877 | the loop reports a desync and drops rounds exactly as the verdict on the queues says |
| LobbyRoomServer.SpendRounds | apps/strajer-server/src/lobby.rs:853-877 | taking fronts off all queues until one disagrees or runs dry computes the verdict |
| LobbyRoomServer.LobbyRoom.PublishChat | apps/strajer-server/src/lobby.rs:308-335 | chat is relayed unless it repeats the sender's last message within the window |
| LobbyRoomServer.LobbyRoom.RequestManualStart | apps/strajer-server/src/lobby.rs:337-366 | a start request starts, arms or explains, in the order of the source's tests |
| LobbyRoomServer.LobbyRoom.Leave | apps/strajer-server/src/lobby.rs:368-427 | pending actions are flushed before the departure is announced; a failed flush keeps the seat |
| LobbyRoomServer.LobbyRoom.Remove | apps/strajer-server/src/lobby.rs:388-417 | the last departure resets the game, one remaining player is given a timer, the others may begin the game |
| LobbyRoomServer.LobbyRoom.Unseat | apps/strajer-server/src/lobby.rs:388-408 | a departure bumps the revision, cancels the countdown and is broadcast as the phase demands |
| LobbyRoomServer.LobbyRoom.ResetGame | apps/strajer-server/src/lobby.rs:879-890 | a reset clears every flag and queue and keeps the counters |
| LobbyRoomServer.LobbyRoom.PublishPendingActions | apps/strajer-server/src/lobby.rs:528-549 | the queue is drained into consecutively numbered frames until the sequence space ends |
| LobbyRoomServer.NumberFrames | apps/strajer-server/src/lobby.rs:538-547 | frames are numbered without gap from the last number on |
| LobbyRoomServer.LobbyRoom.PublishGameplayTick | apps/strajer-server/src/lobby.rs:514-526 | a tick of another generation does nothing and stops its actor |
| LobbyRoomServer.LobbyRoom.EndGame | apps/strajer-server/src/lobby.rs:568-584 | a started, unended game ends once, under a new generation, with its queue cleared |
| LobbyRoomServer.LobbyRoom.PublishCountdownTick | apps/strajer-server/src/lobby.rs:634-645 | only the current countdown's tick is published |
| LobbyRoomServer.LobbyRoom.StartGame | apps/strajer-server/src/lobby.rs:622-631 | only the current countdown starts the game |
| LobbyRoomServer.LobbyRoom.ShouldEndForLonePlayer | apps/strajer-server/src/lobby.rs:555-561 | the answer is yes exactly for an unended game of the captured generation whose table holds a single player, and then ending it publishes exactly one end |
| LobbyRoomServer.LobbyRoom.ControlSnapshot | apps/strajer-server/src/lobby.rs:443-462 | under the room invariant: everybody has loaded while playing, somebody is missing while two or more load, nobody has loaded before the start, and the roster passes validation |
| Consensus.JudgeMeaning | apps/strajer-server/src/lobby.rs:853-877 | a desync is reported if and only if some complete round holds two different checksums; otherwise exactly the complete rounds are spent |
| Consensus.JudgeUnique | apps/strajer-server/src/lobby.rs:853-877 | that description leaves only one verdict possible |
| RoomInvariant.JoinOutcome | apps/strajer-server/src/lobby.rs:122-178 | a join succeeds exactly when nothing forbids it, at the least free id and under the next session |
| RoomInvariant.SeatIsFree | apps/strajer-server/src/lobby.rs:148-150 | below capacity a free id exists, so the second way to answer full is unreachable |
| RoomInvariant.JoinKeepsValid | apps/strajer-server/src/lobby.rs:122-179 | joining keeps seats, sessions and names unique and every flag consistent |
| RoomInvariant.MarkReadyKeepsValid | apps/strajer-server/src/lobby.rs:181-210 | readiness keeps the invariant, including that a full ready room is counting down |
| RoomInvariant.ManualStartKeepsValid | apps/strajer-server/src/lobby.rs:337-366 | an armed start always has somebody left to wait for |
| RoomInvariant.MarkLoadedKeepsValid | apps/strajer-server/src/lobby.rs:212-241 | a loading game with two or more players always has somebody left to wait for |
| RoomInvariant.SubmitActionKeepsValid | apps/strajer-server/src/lobby.rs:243-270 | the queue's byte counter equals the bytes queued and its actions come from present players |
| RoomInvariant.SubmitKeepAliveKeepsValid | apps/strajer-server/src/lobby.rs:272-306 | keepalives keep the invariant |
| RoomInvariant.RepeatsAreDropped | apps/strajer-server/src/lobby.rs:320-334 | repeating one's last message is relayed again exactly when the window has passed |
| RoomInvariant.LeaveKeepsValid | apps/strajer-server/src/lobby.rs:368-427 | departures keep the invariant, the reset included |
| RoomInvariant.EndGameKeepsValid | apps/strajer-server/src/lobby.rs:568-584 | ending a game keeps the invariant |
| RoomInvariant.PhaseMeaning | apps/strajer-server/src/lobby.rs:443-455 | in every valid room the flags encode exactly one of five phases; an empty room is waiting |
| RoomInvariant.EmptyIsFresh | apps/strajer-server/src/lobby.rs:879-890 | an empty room is a fresh room but for its counters |
| RoomInvariant.RosterIsValid | apps/strajer-server/src/lobby.rs:768-783 | the roster of a non-empty valid room passes validation |
| Refinement.ServerFollowsProtocol | apps/strajer-server/src/lobby.rs:122-645 | every interleaving of server steps is a run of the five-phase protocol, with its broadcasts as its log |
| Refinement.StepSimulates | apps/strajer-server/src/lobby.rs:122-645 | each single step is a protocol run and keeps room, late sends and task order sound |
| Refinement.StepFollowsEdges | apps/strajer-server/src/lobby.rs:443-484 | every server step keeps the phase or takes an edge of waiting, countdown, loading, playing, ended; back to waiting only by a cancelled countdown or by emptying |
| Refinement.LeaveSimulates | apps/strajer-server/src/lobby.rs:368-427 | leaving is: timeslots of the flushed actions, one departure, and the game if it was waited for |
| Refinement.WakeSimulates | apps/strajer-server/src/lobby.rs:493-645 | waking any task is a tick, a start, timeslots, an end, or nothing |
| Refinement.TickFramesProper | apps/strajer-server/src/lobby.rs:528-548 | every frame published fits the tunnel, decodes, and carries actions of present players only |
| Protocol.EventsFollowEdges | apps/strajer-server/src/lobby.rs:443-484 | events move the phase only along waiting, countdown, loading, playing, ended, a cancel, or an emptying |
| Protocol.EventKeepsWellFormed | apps/strajer-server/src/lobby.rs:464-484 | past the waiting phase everyone is announced, and while playing everyone has loaded |
| Answers.JoinIsAnswered | apps/strajer-server/src/lobby.rs:122-179 | in a valid room a join is refused by phase, then by room, name and session ids, each by its own refusal; otherwise the newcomer is seated unready at the least free id and its roster is owed |
| Answers.ReadyIsAnswered | apps/strajer-server/src/lobby.rs:181-210 | the first readiness of a player counts, and begins the countdown if and only if all others are ready and the room is full or a start was asked for |
| Answers.ManualStartIsAnswered | apps/strajer-server/src/lobby.rs:337-366 | each of the five outcomes by phase, number of players and readiness; only a request that comes too early is remembered |
| Answers.LoadedIsAnswered | apps/strajer-server/src/lobby.rs:212-241 | while loading, a player's first report is broadcast, and begins the game if and only if all others of two or more have loaded; refused in every other phase but playing |
| Answers.ActionIsAnswered | apps/strajer-server/src/lobby.rs:243-270 | an action is accepted if and only if the game is playing, session and player match, fewer than 512 actions and at most 743424 bytes are queued with it, and its number is the next; each refusal is named and changes nothing |
| Answers.KeepAliveIsAnswered | apps/strajer-server/src/lobby.rs:272-306 | a checksum is accepted under the analogous conditions, and a task that ends the game as a desync is left if and only if a round everybody has reported holds two checksums |
| Answers.ChatIsAnswered | apps/strajer-server/src/lobby.rs:308-335 | chat is owed to everybody unless it repeats the sender's last relayed message within 250 ms, and is then what the next is compared with |
| Answers.LeaveIsAnswered | apps/strajer-server/src/lobby.rs:368-427 | a departure takes effect after everything pending is published without game time, with the broadcast, next phase and task its phase demands, unless frame numbers run out |
| Progress.LoadingReachesPlaying | apps/strajer-server/src/lobby.rs:212-241 | from any sound loading world of two or more players, the reports of the missing ones in any order are exactly what is broadcast and lead to playing with an outstanding actor |
| Progress.RequestReachesCountdown | apps/strajer-server/src/lobby.rs:337-366 | from any sound waiting world of two or more players, a request to start followed by readiness of the missing ones in any order begins the countdown at its full time, as the only broadcast, with its task |
| Progress.ReadinessReachesCountdown | apps/strajer-server/src/lobby.rs:181-210 | the same without a request when the room is full |
| Progress.ChatReachesEverybody | apps/strajer-server/src/lobby.rs:308-335 | a message and its late send are broadcast exactly if it does not repeat |
| Progress.NewcomerIsAnnounced | apps/strajer-server/src/lobby.rs:155-178 | a join and its late send broadcast the roster of everybody seated |
| Progress.EndIsAnswered | apps/strajer-server/src/lobby.rs:568-584 | a woken end ends a loading or playing game with exactly one broadcast of its cause, and does nothing otherwise |
| Progress.DesyncEndsGame | apps/strajer-server/src/lobby.rs:272-306 | the checksum that completes a disagreeing round ends the game as a desync once its task is woken |
| Progress.TickIsAnswered | apps/strajer-server/src/lobby.rs:493-549 | a woken actor publishes everything pending and one increment and plays on, or hands over to an end when frame numbers run out |
| Tasks.CallKeepsOrder | apps/strajer-server/src/lobby.rs:464-512 | generations handed to tasks strictly increase in the order of spawning, per kind |
| Tasks.WakeKeepsOrder | apps/strajer-server/src/lobby.rs:601-645 | waking a task keeps that order and the agreement on the remaining time |
| Timers.OnlyOneCanAct | apps/strajer-server/src/lobby.rs:514-526 | of all countdown tasks, and of all gameplay actors, ever spawned in a run at most one can act |
| Timers.UnheededIsInert | apps/strajer-server/src/lobby.rs:516-522 | a task the room no longer matches neither changes it, nor publishes, nor spawns, and ends |
| Timers.StaleForever | apps/strajer-server/src/lobby.rs:516-566 | once stale, a countdown task, an actor, or a last-player timer of a generation below the ceiling is stale in every continuation, across cancels, restarts, ends and resets |
| Timers.TimersTimeLonePlayers | apps/strajer-server/src/lobby.rs:410-427 | in every run a timer of the current generation belongs to a started game of one player |
| Timers.SaturatedTimerReturns | apps/strajer-server/src/lobby.rs:551-582 | at the ceiling of generations an old timer does come back: a valid loading room of two players does not listen to it, and does once one of them has left |
| Timers.NobodyIsForgotten | apps/strajer-server/src/lobby.rs:387-427 | in every run a countdown has its task, a game its actor or its coming end, a lone player a timer of the current generation or the coming end, a desync the coming end |
| Timers.ForgottenIffSingleSeat | apps/strajer-server/src/lobby.rs:410-417 | nobody is ever forgotten in any run if and only if the room does not have exactly one seat |
| Timers.WhoIsAwaited | apps/strajer-server/src/lobby.rs:464-475 | a loading game waits for an unloaded player, a full ready room counts down, an armed start waits for an unready player |
| Timers.CountdownReachesStart | apps/strajer-server/src/lobby.rs:608-632 | a countdown task left alone publishes every remaining step and then the start |
| Timers.LonePlayerNeverWaitsForever | apps/strajer-server/src/lobby.rs:551-566 | in every run some task waits for a lone player's game; each coming end that is woken ends it, and each timer of the game that is woken hands over to a task that does, with exactly one end published |
| Sessions.DepartedSessionIsPowerless | apps/strajer-server/src/lobby.rs:376-382 | a departed session never again changes the room, publishes or starts a task, even after its id is reallocated |
| Sessions.JoinIsFresh | apps/strajer-server/src/lobby.rs:148-155 | a join gets the least free id and a session id nobody ever had in the run |
| Published.PublishedRostersAreValid | crates/strajer-protocol/src/lib.rs:222-255 | every roster ever published passes validation, and a departure's roster lacks the departed |
| LogShape.ServerLogHasShape | apps/strajer-server/src/lobby.rs:528-645 | a spectator that accepts only updates in their place accepts every log of every run and knows the phase |
| LogShape.GameFollowsCountdown | apps/strajer-server/src/lobby.rs:608-632 | chat aside, each start directly follows one whole countdown from initial to step |
| LogShape.GameRunsOnce | apps/strajer-server/src/lobby.rs:129-134 | until the room empties there is no second start, no join and no countdown, and frames are numbered 1, 2, 3 |
| LogShape.GameKeepsOrder | apps/strajer-server/src/lobby.rs:384-402 | nothing but chat and departures follows the end; no frame carries an action of somebody who left; nobody loads twice or after a frame |
| FirstFrame.FramesFollowLoading | apps/strajer-server/src/lobby.rs:464-549 | whenever a step of a run publishes a frame, the log before it holds the start of the current game and, since then, exactly one loading report of every player then present |
| FirstFrame.SomeStepPublishes | apps/strajer-server/src/lobby.rs:528-549 | every update of every log is published by some step of the run |
| FirstFrame.LoadedIsReported | apps/strajer-server/src/lobby.rs:212-241 | in any accepted log a player counts as loaded exactly through one report since the start and no departure |
| LogShape.StartFollowsWholeCountdown | apps/strajer-server/src/lobby.rs:608-632 | the same about any accepted log |
| LogShape.FramesAreNumbered | apps/strajer-server/src/lobby.rs:538-547 | the frames of the current game number exactly 1 to the latest |
| LogShape.NothingAfterTheEnd | apps/strajer-server/src/lobby.rs:568-584 | no frame, second end or loading after the end before the room empties |
| GameFlow.NothingIsLost | apps/strajer-server/src/lobby.rs:243-270 | published followed by pending actions are the accepted ones in order; published time is one increment per completed tick, whatever the load or the departures |
| GameFlow.PublishGrowth | apps/strajer-server/src/lobby.rs:528-549 | one publication delivers the whole queue and its increment, or a prefix when numbers run out |
| GameFlow.LeaveConserved | apps/strajer-server/src/lobby.rs:384-386 | a flush at a departure loses no action and adds no time |
| Rounds.RoundsAreAligned | apps/strajer-server/src/lobby.rs:853-877 | present players have had equally many rounds taken; without a desync all of them agree on each; a desync means two really differed |
| Rounds.ReportIsFair | apps/strajer-server/src/lobby.rs:272-306 | one keepalive keeps queues and history aligned whatever the verdict |
| Rounds.KeepAliveSpendsAllRounds | apps/strajer-server/src/lobby.rs:853-877 | right after a keepalive without desync some present player's queue is empty |
| Rosters.Validate | crates/strajer-protocol/src/lib.rs:223-255 | accepts exactly the rosters with valid, distinct entries within capacity; a duplicate error names a value that repeats |
| Rosters.ListedRosterIsValid | apps/strajer-server/src/lobby.rs:768-783 | the listing of a player table with ids within capacity and valid names passes validation |
| Rosters.PlayerOfRoster | crates/strajer-protocol/src/lib.rs:257-261 | looking up an id in a listing finds exactly the table's player |
| Compatibility.AgentsNeverReject | apps/strajer-agent/src/remote_lobby.rs:280-380 | in every run with the default policy, the agent of every present player accepts its welcome and every update since its join, and ends in agreement with the server |
| Compatibility.EventTaken | apps/strajer-agent/src/main.rs:782-953 | whatever happens next, an agent in agreement takes it in and stays in agreement |
| Compatibility.AnnounceTaken | apps/strajer-agent/src/main.rs:783-806 | a join roster sent late and out of order is either ignored or brings the agent to exactly the members of its revision |
| Compatibility.GameDepartureTaken | apps/strajer-agent/src/main.rs:901-931 | an in-game departure is of a player every remaining agent knows and leaves it with the players who remain |
| Compatibility.SlotTaken | apps/strajer-agent/src/remote_lobby.rs:362-380 | each published timeslot has the sequence number the agent expects, survives the tunnel, decodes, and carries actions only of players its Warcraft knows |
| Compatibility.NewcomerAgrees | apps/strajer-agent/src/main.rs:176-205 | a newcomer and its Warcraft agree with the server from the handshake on |
| AgentRuns.AgentsInGame | apps/strajer-agent/src/main.rs:879-900 | in every run, while a game is on, every present player's agent lists exactly the players present, holds exactly the loaded ones for loaded (all of them while playing), and has received exactly the frames published |
| AgentRuns.OwnLoadingIsEchoed | apps/strajer-agent/src/main.rs:879-900 | of everything an agent may take in, exactly the first report of its own player's loading is echoed to that player's Warcraft |
| AgentRuns.OwnLoadingReachesWarcraft | apps/strajer-server/src/http.rs:326-328 | in every run a present player's Warcraft has been told of its own loading exactly once if the player has loaded, and never otherwise |
| AgentAnswers.UpdateIsAnswered | apps/strajer-agent/src/main.rs:778-953 | every update is rejected with exactly the complaint it deserves, or leads to exactly the scenes, addressees and knowledge it calls for |
| Scenes.LogReachesWarcraft | apps/strajer-agent/src/main.rs:782-953 | in every run Warcraft is shown, in order, exactly what the log since the join calls for: chat by its sender, countdown steps and cancellation by the host, start, loading, turns, departures with their codes, end |
| Scenes.ChatGoesToEverybody | apps/strajer-agent/src/main.rs:838-847 | in every run each chat frame lists everybody on the agent's roster at the time, once |
| Introductions.RosterIntroducesFully | apps/strajer-agent/src/main.rs:994-1021 | whoever a roster update introduces gets appearance and profile after the name, and the slots come last |
| Introductions.HandshakeIsComplete | apps/strajer-agent/src/main.rs:176-205 | the handshake opens with the slots and the host, introduces everybody fully, names the own profile and ends with the map |
| Compatibility.RostersPrecedeStart | apps/strajer-server/src/lobby.rs:170-172 | once a countdown runs or a game has started no join roster is still to be sent |
| WarcraftView.RosterShown | apps/strajer-agent/src/main.rs:994-1021 | a roster update takes Warcraft's table from host and remotes of one roster to those of the next, without a wrong frame |
| WarcraftView.RostersInAnyOrder | apps/strajer-agent/src/main.rs:783-806 | valid rosters in any order, late or repeated, are all accepted and leave agent and Warcraft in step at one of them, or the agent's own, that no other exceeds in revision |
| WarcraftView.DepartureShown | apps/strajer-agent/src/main.rs:915-924 | an in-game leave frame keeps the table right when the new roster lacks just that player |
| WarcraftView.HandshakeShown | apps/strajer-agent/src/main.rs:176-205 | the handshake introduces host and remote players once each and shows the slots of the roster |
| LobbySession.AgentSession.Handle | apps/strajer-agent/src/main.rs:778-953 | one event of the session loop changes the variables and writes the frames the reaction function says, or fails with its error |
| LobbySession.AgentSession.HandleRoster | apps/strajer-agent/src/main.rs:783-806 | invalid rosters and those without the local player fail, old ones are ignored, new ones are applied |
| LobbySession.AgentSession.HandleLeft | apps/strajer-agent/src/main.rs:901-931 | an in-game departure is checked in the order of the source and applied |
| LobbySession.AgentSession.HandleFrame | apps/strajer-agent/src/remote_lobby.rs:362-380 | only the next timeslot, intact and decodable, reaches Warcraft |
| LobbySession.AgentSession.HandleLoaded | apps/strajer-agent/src/main.rs:879-900 | each player's loading reaches Warcraft once |
| LobbySession.AgentSession.ApplyRosterUpdate | apps/strajer-agent/src/main.rs:994-1021 | the two loops write leave frames of changed remotes, then introductions, then the slots |
| LobbySession.AgentSession.WriteHandshake | apps/strajer-agent/src/main.rs:176-205 | the handshake frames in the order of the source |
| LobbySession.AgentSession.MarkReady | apps/strajer-agent/src/remote_lobby.rs:186-194 | readiness is sent once |
| LobbySession.AgentSession.MarkLoaded | apps/strajer-agent/src/remote_lobby.rs:202-210 | loading is sent once |
| LobbySession.AgentSession.SendGameFrame | apps/strajer-agent/src/remote_lobby.rs:212-225 | frames are numbered consecutively from one and a frame that cannot be sent uses no number |
| Sequences.RoomCountsFrames | apps/strajer-server/src/lobby.rs:830-851 | in every run, whatever is sent and refused, the frames accepted of a session are numbered 1, 2, 3, ..., and the room's last number of a present player is their count |
| Sequences.NeverOutOfSequence | apps/strajer-agent/src/remote_lobby.rs:212-225 | in every run, frames numbered by an agent and taken in that order are never refused as out of sequence while none is refused for another reason, and the room's last number is their count |
| Slots.BuildSlots | apps/strajer-agent/src/main.rs:1319-1369 | the loop over the topology yields the projection of every valid roster of a DotA lobby |
| Slots.EveryoneOnce | apps/strajer-agent/src/main.rs:1338-1361 | every member and the host occupy exactly one slot, their own, and every other slot is open |
| Slots.SlotsKeepTopology | apps/strajer-agent/src/main.rs:58-70 | whoever sits where, the eleven slots have the team, color and race of the DotA topology |
| Slots.MembersAreWelcome | crates/strajer-w3gs/src/slot.rs:150-167 | the join frame exists for exactly the members and the host |
| Slots.NewSlotInfo | crates/strajer-w3gs/src/slot.rs:110-140 | slot information exists for 1 to 24 slots that cover the player slots |
| Slots.EncodePayload | crates/strajer-w3gs/src/slot.rs:169-182 | the pushes produce the payload |
| Slots.PayloadIsReadable | crates/strajer-w3gs/src/slot.rs:169-182 | each slot, the seed, the layout and the counts can be read back from the payload |
| Slots.SlotConstants | crates/strajer-w3gs/src/slot.rs:52-98 | the remaining bytes of every slot: no computer, default type, full handicap |
| MapModel.FileIsSentOnce | apps/strajer-agent/src/main.rs:260-299 | over any acknowledgements and advances a receiver that takes only exact continuations holds precisely the bytes up to the next offset |
| MapModel.AdvanceKeepsValid | apps/strajer-agent/src/main.rs:274-299 | parts are 1 to 1442 bytes, offsets stay within 32 bits and within the window's bound |
| MapModel.WindowBounds | apps/strajer-agent/src/main.rs:275-297 | at most 100 parts unless unsent data was acknowledged; a fully acknowledged unfinished transfer sends more |
| MapModel.LockstepCompletes | apps/strajer-agent/src/main.rs:260-299 | acknowledging exactly what has been sent and advancing, n times over: nothing unsent is ever acknowledged, each round sends a whole window or the rest, and the file is complete if and only if n windows hold what was missing |
| MapProgress.ReportRoundTrip | crates/strajer-w3gs/src/map.rs:69-91 | a report decodes to a flag and size if and only if it is the frame made from them |
| MapProgress.ReportsAreAnswered | apps/strajer-agent/src/main.rs:1186-1265 | at any point of any session: the whole map verifies, flag 3 moves the acknowledged offset to the larger of old and reported, flag 1 below the map's size changes nothing, anything else is the named error |
| MapProgress.TimerFailsWhenLate | apps/strajer-agent/src/main.rs:1267-1317 | the timer fails a session exactly when a clock has run out or the preparation has come to nothing, with the named error |
| MapProgress.LockstepSession | apps/strajer-agent/src/main.rs:1186-1317 | a session that reports flag 3 at exactly what it holds and whose timer fires holds the whole file after n rounds if and only if n windows hold what was missing |
| MapProgress.MapSessionCompletes | apps/strajer-agent/src/main.rs:1186-1317 | from the first request through n rounds to the report of the whole map: the file is complete exactly when the windows suffice, and Warcraft becomes ready once |
| MapModel.MapSessionIsSane | apps/strajer-agent/src/main.rs:1186-1317 | over any map session Warcraft becomes ready at most once and the frames written decode to the file in order |
| MapModel.MapSizeEdge | apps/strajer-agent/src/main.rs:1186-1265 | reports move the session forward only and readiness is reported exactly on verification |
| MapModel.TimerEdge | apps/strajer-agent/src/main.rs:1267-1317 | the timer moves the session forward only and never reports readiness |
| MapModel.PartRoundTrip | crates/strajer-w3gs/src/map.rs:119-148 | a part frame exists exactly for valid ids and ranges and decodes to its offset and bytes |
| MapTransfer.ActiveMapTransfer.Acknowledge | apps/strajer-agent/src/main.rs:260-272 | acknowledgements beyond the map fail, old ones change nothing, new ones move the window |
| MapTransfer.ActiveMapTransfer.PendingFrames | apps/strajer-agent/src/main.rs:274-299 | the loop emits the frames of exactly the parts the window lets through and stops where it ends |
| MapTransfer.MapTransferSession.HandleMapSize | apps/strajer-agent/src/main.rs:1186-1265 | a report changes the session, answers and writes as its function says |
| MapTransfer.MapTransferSession.Advance | apps/strajer-agent/src/main.rs:1267-1317 | the timer completes a preparation and sends what the window allows |
| Batching.IncomingActionFrames | crates/strajer-w3gs/src/game.rs:193-241 | the two loops compute the frames of a tick or the error of the first invalid action |
| Batching.SplitIntoGroups | crates/strajer-w3gs/src/game.rs:204-224 | the splitting loop computes the greedy split |
| Batching.EncodeActionGroup | crates/strajer-w3gs/src/game.rs:243-262 | the encoding loop writes the records behind increment and checksum |
| Batching.TickFramesCorrect | crates/strajer-w3gs/src/game.rs:193-241 | batching succeeds exactly on valid actions; frames fit, decode to the actions in order, and only the last advances the clock |
| Batching.SplitIsGreedy | crates/strajer-w3gs/src/game.rs:204-224 | no group could have taken the first action of the next |
| Batching.GreedySplitUnique | crates/strajer-w3gs/src/game.rs:204-224 | there is only one such split |
| Batching.SplitIsMinimal | crates/strajer-w3gs/src/game.rs:204-224 | no order-preserving split into groups that fit uses fewer frames |
| Batching.NeighboursOverflow | crates/strajer-w3gs/src/game.rs:217-221 | two neighbouring groups together never fit one frame |
| Actions.DecodePlayerActions | crates/strajer-w3gs/src/game.rs:264-287 | the parse loop computes the parse of the records |
| Actions.ParseRecordsRoundTrip | crates/strajer-w3gs/src/game.rs:250-287 | parsing inverts encoding exactly for the actions the constructor admits |
| Actions.ParseRecordsCanonical | crates/strajer-w3gs/src/game.rs:264-287 | accepted record bytes re-encode to themselves |
| Actions.TimeslotRoundTrip | crates/strajer-w3gs/src/game.rs:124-178 | a timeslot that fits decodes to itself if and only if it is valid |
| Actions.TimeslotCanonical | crates/strajer-w3gs/src/game.rs:124-178 | an accepted timeslot frame is the encoding of what it decodes to |
| Actions.OutgoingActionCanonical | crates/strajer-w3gs/src/game.rs:20-48 | an accepted action frame is the encoding of its data |
| Actions.NewAction | crates/strajer-w3gs/src/game.rs:96-101 | actions exist exactly for non-zero players and at most 1449 bytes |
| GameInput.ActionArrives | apps/strajer-server/src/http.rs:454-479 | an action reaches the room as Warcraft wrote it, under the session's own player |
| GameInput.OnlyOwnActions | apps/strajer-server/src/http.rs:464-477 | an accepted message is exactly the encoding of some action, in the name of the session's player only |
| GameInput.ForwardedFits | apps/strajer-agent/src/main.rs:1132-1147 | every frame an agent forwards fits the tunnel |
| GameInput.KeepAliveArrives | apps/strajer-server/src/http.rs:480-486 | a keepalive's checksum reaches the room |
| GameInput.ChecksumIsWarcrafts | crates/strajer-w3gs/src/game.rs:56-83 | a checksum reaches the room under a number if and only if the message carries a keepalive frame with exactly that checksum |
| Frames.NewFrame | crates/strajer-w3gs/src/frame.rs:51-74 | frames exist exactly for payloads that fit the 16-bit length |
| Frames.FrameRoundTrip | crates/strajer-w3gs/src/frame.rs:76-125 | decoding inverts encoding if and only if the limit is legal and admits the frame |
| Frames.FrameCanonical | crates/strajer-w3gs/src/frame.rs:76-99 | accepted bytes are the encoding of the frame they decode to |
| FrameStream.FrameReader.ReadNext | crates/strajer-w3gs/src/frame.rs:140-159 | a completed read depends only on the unread bytes, whatever the chunking |
| FrameStream.StreamRoundTrip | crates/strajer-w3gs/src/frame.rs:117-159 | concatenated frames are read back as exactly the frames written, then the end |
| FrameStream.StreamInjective | crates/strajer-w3gs/src/frame.rs:117-125 | different frame lists have different bytes |
| FrameStream.StreamCanonical | crates/strajer-w3gs/src/frame.rs:140-159 | a stream read to its end is the encoding of the frames read |
| GameTunnel.TunnelRoundTrip | crates/strajer-protocol/src/game_tunnel.rs:110-173 | a message survives the tunnel if and only if the constructors admit it |
| GameTunnel.TunnelCanonical | crates/strajer-protocol/src/game_tunnel.rs:121-156 | accepted messages re-encode to themselves |
| GameTunnel.DirectionsAreSeparate | crates/strajer-protocol/src/game_tunnel.rs:132-134 | no side accepts a message of its own direction |
| GameTunnel.DeliveryIsFaithful | crates/strajer-protocol/src/game_tunnel.rs:110-173 | a frame arrives intact if and only if it has at most 1460 bytes and a positive number |
| StatString.EncodeStatString | crates/strajer-lan/src/game_info.rs:106-128 | the nested loops with the back-patched control byte compute the encoding |
| StatString.RoundTrip | crates/strajer-lan/src/game_info.rs:106-209 | the seven-bit control decoder inverts the encoder on every byte sequence |
| StatString.LengthOfEncoding | crates/strajer-lan/src/game_info.rs:106-108 | one control byte for every seven bytes or part of seven |
| StatString.EncodingIsOdd | crates/strajer-lan/src/game_info.rs:110-125 | every encoded byte is odd, so none is NUL |
| GameData.EncodeGameData | crates/strajer-lan/src/game_info.rs:65-81 | the pushes produce the blob |
| GameData.EncodeGameSettings | crates/strajer-lan/src/game_info.rs:83-99 | the pushes produce the settings |
| GameData.BlobReadable | crates/strajer-lan/src/game_info.rs:65-99 | name, settings, player count, flags and port of every valid descriptor can be read back |
| GameData.BlobIsUnambiguous | crates/strajer-lan/src/game_info.rs:65-99 | equal blobs come from lobbies equal in everything announced, up to the direction of slashes in the map path |
| GameData.OnlySlashesTurn | crates/strajer-lan/src/game_info.rs:85 | in the map path every backslash becomes a slash and nothing else changes |

## Left out

- Sockets, WebSocket and HTTP routing, JSON, base64, protobuf and the task scheduler: a step is atomic and a timer may fire at any moment.
- Broadcast lag and the snapshot sent after it: retained older updates may follow the snapshot, so the agent theorems assume no lag.
- A join subscribes before it takes the lock, so a session may also receive updates older than its join; the agent theorems start at the join.
- Reads of a Warcraft frame dropped half-way: stream theorems speak of reads that run to completion.
- The game a late end was caused in: ending a game carries no generation, so it is a task of its own that may run at any later moment.
- An action record above the frame bound, once id and data length have been validated: that branch of the splitting loop is unreachable and not modelled.
- Timers.NobodyIsForgotten: excludes rooms with exactly one seat, where it is false: their player starts alone and nothing ends that game.
- Map preparation, download and hashing: the result of the preparation task is a parameter of the transfer timer.
- Host, process and log output: status events, log lines and transfer percentages.
- Validation of whole lobby descriptors and catalogues: only the conditions the theorems need appear, as `DotaLobby` and `ValidDescriptor`.
- Text of notices and countdown messages: chat frames carry what is said, not its wording.
- Fixed-layout frames with a single branch (ping, countdown start and end, game over, leave acknowledgement): named, not encoded.
- GameFlow.NothingIsLost: once the 64-bit frame number is exhausted only the prefix claim remains, because the room then drops what it cannot number.
- Compatibility.AgentsNeverReject: assumes the roster revision below its 64-bit ceiling, because revisions saturate there and agents then ignore new rosters.
- Timers.StaleForever: a last-player timer's generation must lie below the 64-bit ceiling; there a valid room may listen to an old timer again, as Timers.SaturatedTimerReturns shows on a room built by hand, not on a run that reaches it.
- LobbyRoomServer.LobbyRoom.Join: the record behind the lock is one value held in a field, so sharing of its parts is not modelled.
