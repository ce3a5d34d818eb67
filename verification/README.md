# Verified models of the game server's hard parts

Dafny models of the parts of the server whose correctness depends on more than one
function: the reconnect protocol, the two-hop outbound path, the filler bots'
pathfinder, the rate limiters, the nickname migration, the reward outbox, the enemies'
movement and the fairness rules for claims. Run `dafny verify dfyconfig.toml` to check
every file.

Where the source changes state in place, the model is a class whose methods are proved
against functions on values; concurrency is a state machine with one step for each
critical section, and the theorems range over every run of it.

| module | file | models |
|---|---|---|
| RoomSeats | Room.dfy | seats and reservations of one room |
| ResumeProtocol, ResumeInvariants, ResumeRuns, ResumeHistory, ResumeIdentity, ResumeTheorems, ResumeCalls, RoomManagement | Resume*.dfy, RoomManager.dfy | the resume-token protocol: joins, drops, reconnects, half-open handoffs, leaves, the grace sweep and evictions, interleaved lock by lock |
| Outbound, Pipeline, Delivery, FrameOrder, PollWindow | Outbound.dfy, Pipeline.dfy, Delivery.dfy, FrameOrder.dfy, PollWindow.dfy | the reliable and latest-only lanes, the overflow policy, the whole path from room to socket, and the windows inside its polls |
| GameMaps, Pathfinder, FillerBots | GameMap.dfy, Pathfinder.dfy, FillerBot.dfy | the grid, the breadth-first search over flattened arrays, and how a bot follows its path |
| RateLimits | RateLimit.dfy | the per-address limiter with eviction and a cap, and the per-connection bucket |
| Nicknames, NicknameMigration | Nickname.dfy, NicknameMigration.dfy | the nickname rules and migration 005 |
| RewardOutbox | RewardOutbox.dfy | the transactional reward outbox |
| EnemyMovement | EnemyMovement.dfy | enemies walking the maze |
| ContactHistories, ClaimLedgers, ClaimResolution, ClaimJudgement, ClaimLimits, ClaimGeometry | ContactHistory.dfy, ClaimLedger.dfy, ClaimResolution.dfy, ClaimJudgement.dfy, ClaimLimits.dfy, ClaimGeometry.dfy | what a claim is checked against, the claims of a whole match, and the settings for which its guarantees fail |
| FillerEats, DeathContacts | FillerEat.dfy, DeathContact.dfy | server-decided eats and deaths that need a sustained contact |
| Wrappers, RealArithmetic | Wrappers.dfy, RealArithmetic.dfy | the optional value, the result, and a few facts about products of reals |

## What the model says about the code

- **Select race.** The outbound sequencer polls the reliable lane and, if it is empty,
  the snapshot slot; other threads may act in between, at both hops
  (src/network/outbound_sequencer.rs:77-100). The events on the socket are a prefix of
  those emitted in every run. The order of frames and events is kept in every run
  without two kinds of steps: the room shows a frame while the forwarder is in its window
  and has missed an event, or the forwarder puts a frame into the slot of a writer that is
  in its window with one of the frame's events behind it. After any such step the path may
  go on to break the order (`FrameOrder.DisturbanceIsExact`).
- **What the race costs.** An event refused by the room's lane is never followed by a frame
  that reflects it. An event refused by the socket lane may be, if such a frame has already
  slipped past it (`FrameOrder.SomeLossShowsItsFrame`). A player's last event is lost if it
  and the removal of the player's lanes both fall into the forwarder's window while no
  frame waits (`PollWindow.LastEventIsLost`, src/game/room.rs:842-853).
- **Purge and late registration.** A room can be evicted and its tokens purged between
  a player's admission and the registration of the player's token. That `Active` token
  then stays although its room is gone, until its connection's end, a leave or a resume by
  the same user removes it (src/game/room_manager.rs:586-637, 792-799, 921-962). With
  nothing pending, a token has a live room exactly when, at its insertion, the room was
  live or a purge of it was still to come (`SettledTokenHasRoomIff`).
- **"Once per (run, reason)".** The comment at src/game/policies/filler_eat.rs:72-73 promises that a
  rejection is reported at most once per run and reason; the code remembers only the
  last reason. Both agree exactly when no blocking reason returns after another one.
- **Ledger pruning.** An entry keeps the earliest tick of a life, so a later record is
  merged into it and lost with it: 5 and 10, pruned at 7, asked about 11. Over whole matches
  this matters only for late claims. Let L be the lesser of the process delay and the
  history less one tick, h the history, k what the ledger keeps beyond it, and S the render
  skew a death claim may have. No eaten enemy kills later in any match if and only if
  L <= k + 1 or 2L + S <= h + k; no dead player eats later if and only if 2L <= h + k.
  The shipped settings meet both (L = 18, h = 96, k = 60, S = 54). The configuration check
  (src/config_shared.rs:524-533) also admits some that meet neither, such as a history and
  a delay of 300 ticks at the shipped tick rate.
- **Claims are ordered by arrival.** Each batch of claims is sorted by render tick, but a
  claim of a later batch may be the earlier one: an enemy kills, and is then eaten by
  another player at an earlier tick. That happens in some match exactly when claims may be
  two ticks late. A death accepted first stops only the eats its victim drew later in that life.
- **Position tolerance and slack.** The overlap gate can refuse a claim that passes every
  position check, exactly when the tolerance exceeds half the slack; the shipped values
  are 12 and 8. The eat policy, unlike the death policy, accepts a negative visual distance
  and judges the claim as if the distance were zero.
- **Projection.** With a closer projected distance a kill stays a kill exactly when the gate
  only observes or the prediction is not uncertain, and is delayed otherwise; a closer drawn
  enemy never delays it.
- **Backward clock.** The connection bucket calls its clock skew guarded: a step back adds
  no tokens, but the time is then refilled twice. The throughput bound for a window holds
  exactly when the forward steps of the clock between the calls add up to no more than the window.
- `snapshot_slot_overwrites` counts every frame after the first, since the slot is never
  emptied: `PlayerOutbox.SendSnapshotTo` states when it is incremented.

## Model

| member | source | states |
|---|---|---|
| RoomSeats.SeatLimitIsKept | src/game/room.rs:667-716 | Joins, releases and resumes never take players plus reservations over the room's limit. |
| RoomSeats.HoldTradesSeatForReservation | src/game/room.rs:4155-4160 | Holding a dropped player trades the taken seat for a reservation; the total is unchanged. |
| RoomSeats.ReservationGuaranteesReadmission | src/game/room.rs:4183-4189 | An active room with a reservation cannot be full for its owner; without one the answer is the ordinary capacity test. |
| RoomSeats.VerdictsAreExact | src/game/room.rs:667-716 | Which of the three refusals a joining player gets, if any, and which of the two a returning one gets, who is never too late. |
| RoomSeats.Room.TryAddPlayer | src/game/room.rs:667-716 | Admission under the room lock: refused when inactive, full or too late, otherwise the player is seated and nothing else changes. |
| RoomSeats.Room.RemovePlayer | src/game/room.rs:842-884 | Removal takes exactly that player's seat and touches no reservation. |
| RoomSeats.Room.HoldPlayerForResume | src/game/room.rs:4155-4160 | Returns the dropped player's state and reserves the seat; nothing changes for an unknown player. |
| RoomSeats.Room.ResumePlayer | src/game/room.rs:4167-4194 | Consumes one reservation on success and on failure and seats the returning player on success. |
| RoomSeats.Room.ReleaseReservation | src/game/room.rs:4246-4248 | Drops one reservation, saturating at zero. |
| ResumeTheorems.ReservationConservation | src/game/room_manager.rs:666-738 | In every reachable state of every interleaving, a live room's reserved count is the number of `Held` tokens for it plus the calls in flight that owe a reservation. |
| ResumeTheorems.ReleaseNeverUnderflows | src/game/room_manager.rs:905-1092 | Any call that owes a reservation finds one to give back or consume, even in an evicted room. |
| ResumeTheorems.SettledRoomPromisesNothing | src/game/room_manager.rs:403-430 | No slot leaks: with no call in flight and no held token, a live room reserves nothing. |
| ResumeTheorems.SeatsNeverOverfilled | src/game/room_manager.rs:586-637 | Over all runs, players plus reservations never exceed the limit of any room. |
| ResumeTheorems.HeldSeatReadmits | src/game/room_manager.rs:1013-1092 | The owner of a held seat is readmitted in the captured state with one reservation less, and turned away only if the match has ended. |
| ResumeTheorems.HandoffIsNetZero | src/game/room_manager.rs:1013-1092 | A half-open handoff replaces the stale entity by the new one in the same state; player and reservation counts are unchanged. |
| ResumeTheorems.EntityHasOneOwner | src/game/room_manager.rs:673-687 | At most one `Active` token or call in flight is entitled to act on an entity. |
| ResumeTheorems.ResumeSpendsToken | src/game/room_manager.rs:921-986 | A resume attempt uses up the token exactly when it is the caller's own; another user's attempt leaves all tokens as they were. |
| ResumeTheorems.SpentForever | src/game/room_manager.rs:921-986 | A token that has been used up never comes back in any later state. |
| ResumeTheorems.LateDropChangesNothing | src/game/room_manager.rs:673-687 | A disconnect that arrives after a handoff, whatever it names, changes nothing. |
| ResumeTheorems.ComebackMatchesDeparture | src/game/room_manager.rs:934-1053 | Every readmission matches an earlier detachment of the same token, room and user in the same state, and a held one was claimed no later than its deadline. |
| ResumeTheorems.OneDetachOneComeback | src/game/room_manager.rs:673-687 | No entity is detached twice, and no token detaches or readmits twice. |
| ResumeTheorems.EventsAreReal | src/game/room.rs:4155-4194 | The events of the history are what the steps did: who was detached had that seat and lost it, who was readmitted sits there in that state. |
| ResumeTheorems.TrackingIsDecidedAtInsertion | src/game/room_manager.rs:792-799 | As long as a token stays in the map, over any stretch of a run, whether an eviction will still remove it does not change. |
| ResumeTheorems.SettledTokenHasRoomIff | src/game/room_manager.rs:743-752 | With no call in flight, a token that stayed has a live room if and only if its room was live or a purge of it still to come when it was inserted. |
| ResumeTheorems.PurgeCanMissLateRegistration | src/game/room_manager.rs:586-637 | A complete run that leaves an `Active` token of an evicted room behind with nothing pending. |
| ResumeRuns.RunsAreSafe | src/game/room_manager.rs:905-1092 | Every state of every run keeps all invariants of the protocol together. |
| ResumeHistory.RunsAreHistorical | src/game/room_manager.rs:666-738 | In every run the event history explains all tokens and calls, and detaches and readmits once. |
| ResumeCalls.TokenLeavesIff | src/game/room_manager.rs:403-430 | A token is removed by exactly one of these: its own drop, a resume of its user that does not wait, a leave, a sweep past its deadline, a purge of its room; any other step leaves its slot as it was. |
| ResumeCalls.TokenEntersIff | src/game/room_manager.rs:700-752 | A slot enters the map exactly when a registration makes it `Active` or a drop parks it `Held` with the state taken from the room and the deadline of that moment. |
| ResumeCalls.SeatsChangeExactly | src/game/room_manager.rs:586-738 | For every room, player and step: who is seated in which state afterwards, and how many seats are promised. |
| ResumeCalls.TryGoesOn | src/game/room_manager.rs:921-986 | Where one attempt of a resume leads, for an absent, another user's, held or live token, with the wait and the grace written out. |
| ResumeCalls.HeldTokenIsClaimedIffInTime | src/game/room_manager.rs:934-950 | The owner of a held token gets the captured state if and only if the deadline has not passed, and otherwise gives the seat back. |
| ResumeCalls.DropGoesOn | src/game/room_manager.rs:666-738 | A drop goes on exactly while its token names this connection, its room is live and active and the player is seated. |
| ResumeCalls.JoinGoesOn | src/game/room_manager.rs:586-637 | A join is admitted exactly when the room is active, has a free seat and is not too far on, and otherwise tries again up to the limit. |
| ResumeCalls.ResumeGoesOn | src/game/room_manager.rs:905-1092 | A resume begins with its first attempt; after the claim it goes on exactly when the token's room is live, and ends otherwise. |
| ResumeCalls.ReadmitGoesOn | src/game/room_manager.rs:1013-1092 | A readmission can always run and goes on to register a token exactly when the match is still on and a stale entity, if one is handed off, is still seated. |
| ResumeCalls.EndGoesOn | src/game/room_manager.rs:761-783 | An explicit leave goes on to give the seat back exactly when its token was held, a release does so exactly in a live room, and the last sections end their calls. |
| ResumeCalls.SweepGoesOn | src/game/room_manager.rs:403-430 | Each token a grace sweep drains gets its reservation given back, and no other call is touched. |
| ResumeCalls.LiveRoomsChangeExactly | src/game/room_manager.rs:792-799 | A room goes live by its creation, empty and active, and leaves by an eviction, which then purges its tokens; nothing else changes which rooms are live. |
| ResumeCalls.DroppedPlayerIsHeld | src/game/room_manager.rs:666-720 | In any run, a drop of a seated player in an active room ends with the token held in the state the player had, due a grace period later; the player is out and one seat more is reserved. |
| ResumeCalls.HeldPlayerComesBack | src/game/room_manager.rs:905-1092 | In any run, an owner who returns in time to a live active room is seated in the captured state and uses up one reservation. |
| ResumeCalls.PlayersComeBackAsTheyLeft | src/game/room_manager.rs:666-1092 | The round trip in any run: drop, hold, park, return within the grace period, and the player sits in the room in the state it was dropped in. |
| ResumeIdentity.RunsAreHonest | src/game/room_manager.rs:673-687 | In every run a token or call names an entity only while that entity is seated for the same user in that room. |
| RoomManagement.RoomManager.ClaimForDrop | src/game/room_manager.rs:673-687 | Removes the token exactly when it is `Active` for this room, player and user. |
| RoomManagement.RoomManager.ClaimForResume | src/game/room_manager.rs:921-986 | Under the map lock, case by case of the old slot: a held token of the caller is claimed up to its deadline and expired after it, a live one is handed off or waited for, an absent or foreign one is left alone. |
| RoomManagement.RoomManager.RegisterActive | src/game/room_manager.rs:743-752 | Inserts the `Active` token of a fresh connection. |
| RoomManagement.RoomManager.ParkHeld | src/game/room_manager.rs:700-712 | Turns a drop into a `Held` token with its deadline. |
| RoomManagement.RoomManager.ForgetResume | src/game/room_manager.rs:761-783 | Removes the token of an explicit leave and reports what it was. |
| RoomManagement.RoomManager.ReleaseIn | src/game/room_manager.rs:427-430 | Gives one reservation back to a room that is still in the map. |
| RoomManagement.RoomManager.DrainExpired | src/game/room_manager.rs:403-424 | Removes exactly the held tokens past their deadline and returns them. |
| RoomManagement.RoomManager.PurgeRoom | src/game/room_manager.rs:792-799 | Removes exactly the tokens of one room. |
| RoomManagement.RoomManager.FindResumeTokenForUser | src/game/room_manager.rs:879-900 | Finds a token of the user if there is one, and among held ones the one with the latest deadline. |
| Outbound.OutboundSequencer.Next | src/network/outbound_sequencer.rs:75-114 | Yields the oldest reliable item if the first look finds one, else what the slot holds by the time of the second look, or ends if the senders are gone by then; sequence numbers increase by one per item. |
| Outbound.ClosedHopDrainsAndEnds | src/network/outbound_sequencer.rs:81-95 | After the sender is gone, the queued reliable items come out in order and then the stream ends. |
| Outbound.PlayerOutbox.NoteReliableOverflow | src/game/outbox.rs:78-88 | An overflow removes the player's lanes and asks for the disconnect. |
| Outbound.PlayerOutbox.SendReliableTo | src/game/outbox.rs:92-100 | Delivers to that player's lane, or cuts that player off when the lane is full or closed. |
| Outbound.PlayerOutbox.BroadcastReliable | src/game/outbox.rs:103-113 | Delivers to every player and cuts off exactly those whose lane refused. |
| Outbound.PlayerOutbox.SendSnapshotTo | src/game/outbox.rs:118-132 | Replaces that player's snapshot slot, counts an overwrite, and touches no reliable lane. |
| Pipeline.SocketIsAPrefix | src/network/websocket.rs:2098-2191 | In every run of room, forwarder, read loop and writer, the reliable events on the socket are a gap-free prefix of those emitted. |
| Delivery.EverythingCanArrive | src/network/websocket.rs:2098-2191 | From any state of an uncut path, polls alone can bring every emitted event and the newest frame to the socket. |
| Delivery.SlotShowsTheNewestOnce | src/network/outbound_sequencer.rs:97-113 | A slot shows its newest frame, shows it once, and polling it takes nothing from the reliable lane. |
| Pipeline.CutForever | src/game/outbox.rs:78-132 | A path that has been cut gains nothing any more. |
| Pipeline.LostEventIsTheLast | src/network/websocket.rs:2151-2162 | Once an event is refused at either hop, neither it nor any later one is ever written. |
| Pipeline.LossInRoomHidesItsFrames | src/game/outbox.rs:78-100 | After the room's own lane refused an event, no frame reflecting it is ever written. |
| Pipeline.LossOnWireHidesItsFramesIff | src/network/websocket.rs:2151-2162 | After the socket lane refused an event, no frame reflecting it is ever written if and only if none is on the socket yet and none is in the slot of a writer that may still look there. |
| FrameOrder.FrameFollowsItsEvents | src/network/websocket.rs:2098-2116 | In every run without a disturbing step, each frame on the socket comes after every event it reflects. |
| FrameOrder.DisturbanceIsExact | src/network/outbound_sequencer.rs:77-100 | After a step, the path may go on without further disturbance to write a frame before one of its events if and only if that step was a disturbing one. |
| FrameOrder.CalmLossHidesItsFrames | src/network/websocket.rs:2151-2162 | If nothing disturbed the path before the socket lane refused an event, no frame reflecting it is ever written. |
| FrameOrder.SomeLossShowsItsFrame | src/network/websocket.rs:2151-2162 | A complete run in which the socket lane refuses an event whose frame the writer may still show. |
| PollWindow.WindowMayBecome | src/network/outbound_sequencer.rs:77-100 | Whatever the room does between the two looks is allowed for by the contract of `OutboundSequencer.Next`. |
| PollWindow.ForwarderOvertakesIff | src/network/outbound_sequencer.rs:77-100 | In every run, the forwarder takes up a frame ahead of an event it has not taken if and only if, between its two looks, the room showed a frame after accepting an event. |
| PollWindow.ForwarderLosesIff | src/network/outbound_sequencer.rs:81-90 | The forwarder stops with events still queued if and only if the lane accepted some and was closed between its two looks, with no frame to read. |
| PollWindow.WindowOvertakes | src/network/outbound_sequencer.rs:77-100 | The same for one lane and any actions of the room in the window. |
| PollWindow.SameTickRace | src/network/outbound_sequencer.rs:77-100 | One event and one frame inside the window are enough to break the order. |
| PollWindow.LastEventIsLost | src/network/outbound_sequencer.rs:86-90 | One event and the removal of the player inside the window are enough to lose the event. |
| GameMaps.DirectionsAreSteps | src/game/filler_bot.rs:581-617 | `dir_between` and `step_cell` are inverse on adjacent cells and defined exactly there. |
| Pathfinder.BfsPath | src/game/filler_bot.rs:655-695 | Returns a shortest reversed route of walkable steps to the target, and nothing exactly when start and target coincide, the target is a wall, or no walk reaches it. |
| Pathfinder.SearchFrom | src/game/filler_bot.rs:665-694 | The loop over queue, `seen` and `prev` finds the target at its true distance or exhausts what is reachable. |
| Pathfinder.Rebuild | src/game/filler_bot.rs:671-683 | The rebuild loop terminates, never meets a missing predecessor, and returns a route as long as the distance. |
| Pathfinder.RouteIsAWalk | src/game/filler_bot.rs:655-695 | A returned route, read backwards from the start, is a walk to its target. |
| FillerBots.TurnsDriveToTarget | src/game/filler_bot.rs:552-617 | Pressing the turns of a route drives to its target in as many moves as it has waypoints and never into a wall. |
| FillerBots.DriveIsAWalk | src/game/filler_bot.rs:610-617 | Any list of turns that arrives is a walk, so none is shorter than the planned route. |
| FillerBots.PoppingKeepsRoute | src/game/filler_bot.rs:552-557 | Popping reached waypoints removes at most one and leaves a route from the bot's cell. |
| FillerBots.WrongTurn | src/game/filler_bot.rs:594-608 | A deliberate mistake turns to the side into an open cell, the first side drawn if it is open, and is impossible only when both sides are closed. |
| FillerBots.BotController.ReplanPath | src/game/filler_bot.rs:521-543 | A new plan starts at the bot, ends at the target, and no list of turns is shorter. |
| FillerBots.BotController.StepAlongPath | src/game/filler_bot.rs:547-573 | The pending turn steps onto the next waypoint, or is a mistake that drops the plan; on track it never faces a wall. |
| RateLimits.IpRateLimiter.CheckAt | src/network/rate_limit.rs:52-85 | One check of the bounded map, eviction and cap included; the map never exceeds its limit. |
| RateLimits.CheckRefinesReference | src/network/rate_limit.rs:52-85 | A check against the evicting map answers as the unbounded per-address buckets would and keeps both in step. |
| RateLimits.SameDenial | src/network/rate_limit.rs:62-75 | The cap denies exactly an address at rest while the cap's number of others are busy, whatever was evicted before. |
| RateLimits.EvictionIsInvisible | src/network/rate_limit.rs:52-85 | Over every run with nondecreasing times the limiter's outcomes are those of the reference. |
| RateLimits.ThroughputBound | src/network/rate_limit.rs:76-84 | In any window of any run one address is allowed at most capacity + rate * length calls, across evictions and readmissions. |
| RateLimits.TokenBucket.TryAllow | src/network/websocket.rs:974-987 | One draw from a connection's bucket; a capacity that is not positive always allows. |
| RateLimits.ConnectionThroughput | src/network/websocket.rs:974-987 | A connection is allowed at most capacity + rate * length calls in a window. |
| RateLimits.BurstIsExact | src/network/websocket.rs:974-987 | Of calls at one instant, exactly as many are allowed as there are whole tokens. |
| RateLimits.RefillIsExact | src/network/websocket.rs:974-987 | Of calls at one instant any time after the last one, exactly as many are allowed as there are whole tokens in the old level plus rate times the idle time, capped at the capacity; a step back of the clock earns nothing. |
| RateLimits.CallIsAllowedIff | src/network/websocket.rs:974-987 | After any calls at nondecreasing times, the next call is allowed if and only if it keeps the token bound in the window since every earlier call and since the start. |
| RateLimits.PacedCallsAreAllowed | src/network/websocket.rs:974-987 | Calls that each earn a whole token since the one before are all allowed. |
| RateLimits.AddressIsAllowedIff | src/network/rate_limit.rs:52-85 | In any sorted run over all addresses, an admitted call is allowed if and only if it keeps its address within the bound in every window. |
| RateLimits.NoCapacityMeansNoLimit | src/network/websocket.rs:971-977 | Without a positive capacity every call is allowed. |
| RateLimits.BoundHoldsIffClockFits | src/network/websocket.rs:971-980 | For given clock readings the bound holds for every bucket and all limits if and only if the forward steps between them add up to no more than the window. |
| RateLimits.BackwardClockRefillsTwice | src/network/websocket.rs:971-980 | A run on a clock that steps back exceeds the bound. |
| Nicknames.StoredMeansValid | src/nickname.rs:40-49 | The validator returns a name unchanged exactly when it is trimmed, 1 to 30 characters long and free of forbidden ones. |
| Nicknames.ValidateIsExact | src/nickname.rs:40-49 | What the validator returns and when it gives which error, by the span between the white space at the two ends. |
| Nicknames.ForbiddenIsTheTable | src/nickname.rs:26-34 | The forbidden characters, by code point. |
| Nicknames.WhitespaceIsTheTable | src/nickname.rs:40-41 | The characters that trimming cuts, by code point. |
| Nicknames.CanonicalValidates | src/nickname.rs:56-65 | The canonical form of any value validates unchanged and is its own canonical form. |
| Nicknames.CanonicalFixesStored | src/nickname.rs:56-65 | A name is its own canonical form exactly when it has the stored shape. |
| Nicknames.ValidatorAgreesWithMigration | src/nickname.rs:40-65 | For a name the validator accepts, both entry points store the same value. |
| Nicknames.FilteredDropsOne | src/nickname.rs:57-58 | Filtering takes out forbidden characters and keeps every other one in order. |
| Nicknames.CanonicalCutsOnlyEdges | src/nickname.rs:56-65 | The canonical form is the first thirty permitted characters less white space at their ends, and the placeholder exactly when nothing else is left. |
| Nicknames.TrimCutsEnds | src/nickname.rs:40-41 | Trimming cuts white space off both ends and nothing else. |
| NicknameMigration.UserTable.UsersOldestFirst | src/db.rs:263-266 | Lists every user once, by creation time and then by id. |
| NicknameMigration.UserTable.NormalizeAndDedupe | src/db.rs:262-297 | The migration leaves the same users with the names the specification gives them, taken in the order of their creation times and ids. |
| NicknameMigration.UserTable.FinalName | src/db.rs:270-286 | The retry loop ends with the canonical name or the first free candidate. |
| NicknameMigration.AttemptsAreFew | src/db.rs:275-285 | No more attempts fail than there are names taken, so the retry loop terminates. |
| NicknameMigration.FoldsAlikeIff | src/db.rs:271 | Two names fold alike if and only if they have the same length and at each place the same character or one letter in its two cases. |
| NicknameMigration.CandidateShape | src/db.rs:274-280 | A candidate is a prefix of the canonical name, cut only as far as the limit asks, a hash sign, the start of the id and the decimal digits of the attempt. |
| NicknameMigration.CandidatesDiffer | src/db.rs:274-280 | Candidates of different attempts fold to different names. |
| NicknameMigration.NamesAreDistinct | src/db.rs:251-256 | Afterwards no two names are equal under ASCII folding. |
| NicknameMigration.OldestKeepsItsName | src/db.rs:253-256 | A user keeps the canonical name exactly when no user created before, or at the same time with a smaller id, ends up with a name that folds to it. |
| NicknameMigration.NamesValidate | src/db.rs:247-250 | Every name after the migration is accepted by the live validator as it is. |
| NicknameMigration.SecondRunChangesNothing | src/db.rs:260-261 | Migrating the result again changes nothing. |
| RewardOutbox.RewardStore.EnqueueRewards | src/db.rs:543-564 | Inserts every new grant as pending and leaves known ids as they are. |
| RewardOutbox.RewardStore.ApplyPendingReward | src/db.rs:573-619 | Claims a pending row and credits its user, or marks it failed when the user is gone; anything else is skipped. |
| RewardOutbox.RewardStore.DrainPendingRewards | src/db.rs:627-660 | Among any transactions of other writers and transient failures, a sweep runs one apply for each listed row and returns how many of its own applies credited a user. |
| RewardOutbox.SweepSettles | src/db.rs:627-660 | Whatever others do meanwhile, every listed row is settled after the sweep unless its own apply failed. |
| RewardOutbox.QuietSweepCreditsAll | src/db.rs:622-626 | Alone and without errors, a sweep credits every listed row whose user exists. |
| RewardOutbox.CrystalsAreConserved | src/db.rs:566-619 | After any interleaving of enqueues, applies, rollbacks and changes to the users, a user owns the initial amount plus that user's applied rows. |
| RewardOutbox.CreditedAtMostOnce | src/db.rs:566-589 | No reward is credited twice in a run. |
| RewardOutbox.CreditsFirstAmount | src/db.rs:541-561 | A credit pays the amount and the user that were enqueued first under its id. |
| RewardOutbox.OutboxHoldsFirstGrants | src/db.rs:547-561 | A row exists exactly when its id was enqueued and holds the first such grant. |
| RewardOutbox.SettledForever | src/db.rs:573-619 | Applied and failed rows never change again. |
| RewardOutbox.AttemptsCountTheApply | src/db.rs:578-586 | In every run a row counts one attempt once it is settled and none before. |
| RewardOutbox.ApplyTouchesOneRow | src/db.rs:573-619 | An apply leaves all other rows and the set of users as they are. |
| RewardOutbox.EnqueuedGrantIsSettledByApply | src/db.rs:566-619 | A committed grant is settled by the next apply of its id, as a credit exactly when its user exists. |
| EnemyMovement.Enemy.Update | src/game/ai.rs:76-154 | One update retargets when due, turns or unblocks near the cell centre, and moves. |
| EnemyMovement.Enemy.MoveInDirection | src/game/ai.rs:192-248 | The move along one axis, stopped at the cell centre before a wall, centred on the other axis and clamped. |
| EnemyMovement.Enemy.FindNearestPlayer | src/game/ai.rs:258-278 | The first of the living players at the least distance, or none when nobody lives. |
| EnemyMovement.EnemiesNeverEnterWalls | src/game/ai.rs:76-256 | No run of updates with steps of at most a cell, whatever the targets and draws, enters a wall, leaves the map or skips a cell, and each ends on a centre line. |
| EnemyMovement.LongerStepsEnterWalls | src/game/ai.rs:192-248 | For every longer step there is a corridor where one move ends in a wall. |
| EnemyMovement.OpenMeansFloorAhead | src/game/ai.rs:156-190 | A direction is open if and only if the next cell that way is on the map and no wall. |
| EnemyMovement.OpenMoveIsWhole | src/game/ai.rs:192-248 | In any open direction the move is the whole step along the centre line. |
| EnemyMovement.BlockedMoveStopsAtCenter | src/game/ai.rs:192-248 | Before a wall the move ends at the cell centre if the step reaches it and is the whole step otherwise. |
| EnemyMovement.TurnIsExact | src/game/ai.rs:96-151 | The direction after a turn, near a centre and away from it, and that the enemy snaps exactly when it turns. |
| EnemyMovement.CentersAreNoticed | src/game/ai.rs:101-104 | An enemy that crosses a cell centre in one tick is near it on both sides, so no turn is missed at any speed. |
| EnemyMovement.TurnsAwayFromWalls | src/game/ai.rs:106-151 | Near a centre, an enemy with a way out leaves its turn facing an open cell, the desired one if it is open. |
| EnemyMovement.ChaseApproaches | src/game/ai.rs:286-301 | The move an update makes in the chosen direction, when that is open, brings the enemy nearer to its target unless it overshoots the longer gap. |
| EnemyMovement.AxisCellBounds | src/game/map.rs:69-80 | The mapping from coordinates to cells is the one given by the cell edges. |
| ContactHistories.ContactHistory.PushFrame | src/game/contact_history.rs:109-114 | The ring is always the last `max_frames` frames ever pushed: the new one is last and only the oldest can go. |
| ContactHistories.ContactHistory.SamplePlayer | src/game/contact_history.rs:118-148 | Computes the sampling function on the ring. |
| ContactHistories.ContactHistory.SampleEnemy | src/game/contact_history.rs:158-197 | Computes the generation-aware sampling function on the ring. |
| ContactHistories.PlayerSamplesAgree | src/game/contact_history.rs:109-148 | With increasing ticks, sampling the ring is sampling the whole log while the lower frame is still kept, and nothing otherwise. |
| ContactHistories.EnemySamplesAgree | src/game/contact_history.rs:109-197 | The same for enemies and any requested generation. |
| ContactHistories.SampleIsOneLife | src/game/contact_history.rs:118-197 | A sample exists exactly when the frames hold the entity in one life; it is the record itself on a whole tick and a point on the segment between two records otherwise. |
| ContactHistories.MovingPlayerIsSampled | src/game/contact_history.rs:118-148 | A player that moves uniformly in one life is sampled where it was at the asked tick, with the flags of the tick before. |
| ContactHistories.MovingEnemyIsSampled | src/game/contact_history.rs:158-197 | The same for an enemy, exactly for a request that names its generation or none. |
| ContactHistories.PlayerSampleIsRecorded | src/game/contact_history.rs:118-148 | Every player sample rests on recorded frames of that life at the bracketing ticks. |
| ContactHistories.EnemySampleIsRecorded | src/game/contact_history.rs:158-197 | Every enemy sample rests on recorded frames of one generation, the requested one if any. |
| ClaimLedgers.ClaimEffects.ConsumeEnemy | src/game/claim_ledger.rs:30-39 | Keeps the earliest tick for that enemy life and leaves the players' map alone. |
| ClaimLedgers.ClaimEffects.KillPlayerLife | src/game/claim_ledger.rs:40-49 | Keeps the earliest tick for that player life and leaves the enemies' map alone. |
| ClaimLedgers.ClaimEffects.EnemyConsumedBefore | src/game/claim_ledger.rs:51-53 | Answers yes exactly when the log of records and prunes leaves a strictly earlier tick of that enemy life. |
| ClaimLedgers.ClaimEffects.PlayerLifeKilledBefore | src/game/claim_ledger.rs:56-63 | Answers yes exactly when the log of records and prunes leaves a strictly earlier tick of that player life. |
| ClaimLedgers.ClaimEffects.PruneOlder | src/game/claim_ledger.rs:67-70 | Drops exactly the entries below the bound from both maps. |
| ClaimLedgers.ExactIffEarliestSurvives | src/game/claim_ledger.rs:30-70 | The ledger answers every question about a life as the whole log would if and only if nothing was recorded or some earliest record has no later prune above it. |
| ClaimLedgers.RecentLivesAreExact | src/game/claim_ledger.rs:64-70 | A life whose records are at or above every prune bound is answered exactly. |
| ClaimLedgers.MergedRecordIsLost | src/game/claim_ledger.rs:30-70 | A record at or above the prune bound can be lost with an earlier one. |
| ClaimLedgers.OtherLivesDoNotMatter | src/game/claim_ledger.rs:14-16 | What the ledger says of a life depends only on its own records and the prunes. |
| ClaimResolution.PruningIsInvisible | src/game/room.rs:2759-2765 | About a life that a recent enough frame shows, pruning has changed no answer of the ledger. |
| ClaimResolution.EatenEnemyCannotKillLater | src/game/room.rs:2970-3000 | After an accepted eat of an enemy life no death by it at a later render tick is accepted, in any later batch of the match. |
| ClaimResolution.DeadPlayerCannotEatLater | src/game/room.rs:3315-3333 | After a player's life was ended by a claim, a filler or the server, no eat drawn by that life at a later render tick is accepted. |
| ClaimResolution.LifeEndedNowCannotEat | src/game/room.rs:1448-1452 | For lives ended by fillers or the server this holds whatever the settings. |
| ClaimResolution.EnemyLifeIsEatenOnce | src/game/room.rs:3345-3455 | No enemy life is eaten twice, with or without a generation named in the claim. |
| ClaimResolution.PlayerLifeIsKilledOnce | src/game/room.rs:3036-3041 | No player life is killed twice by claims, fillers and the server together. |
| ClaimResolution.EatConsumesCurrentLife | src/game/room.rs:3360-3392 | The life an accepted eat consumes is the enemy's current one. |
| ClaimJudgement.EnemyEatIsAcceptedIff | src/game/room.rs:3352-3455 | With enough retention, an eat of an enemy is accepted if and only if the whole history and the whole list of ended lives allow it: attacker drawn alive in time, the current enemy life seen, its respawn grace over. |
| ClaimJudgement.PlayerEatIsAcceptedIff | src/game/room.rs:3456-3545 | The same for an eat of a player, whose current life must be the one seen. |
| ClaimJudgement.DeathIsAcceptedIff | src/game/room.rs:2895-3072 | The same for a death: victim and killer seen in the named lives, ticks in order and within the skew, and that enemy life not ended earlier. |
| ClaimLimits.EatenEnemiesStayDeadIff | src/game/room.rs:1629-1636 | Eaten enemies kill nobody later in any match if and only if the ledger keeps entries long enough for the lateness and skew of claims; otherwise some match with sorted batches has such a kill. |
| ClaimLimits.DeadPlayersEatNobodyIff | src/game/room.rs:1629-1636 | Dead players eat nobody later in any match if and only if the ledger keeps entries for twice the lateness; otherwise some match with sorted batches has such an eat. |
| ClaimLimits.ClaimsStayInOrderIff | src/game/room.rs:2872-2892 | With sorted batches, no match accepts a death and then an eat of the killer's life at an earlier tick if and only if no claim can be more than one tick late. |
| ClaimLimits.DeathStopsOnlyTheVictimsEats | src/game/room.rs:2881-2892 | After an accepted death an eat of an enemy stands as before unless its victim drew it later in that life. |
| ClaimGeometry.WayRoundIsLonger | src/game/policies/enemy_death_claim.rs:77-128 | The triangle inequality for the reported and reconstructed positions, through squared distances. |
| ClaimGeometry.HonestClaimsOverlap | src/game/policies/eat_claim.rs:155-200 | With each position within half the slack and a visible reported overlap, the overlap gate cannot refuse; each policy decides on its other rules alone. |
| ClaimGeometry.SlackIsUsedUp | src/config_shared.rs:316-324 | Honest errors can use up the slack exactly, so the overlap radius cannot be smaller. |
| ClaimGeometry.OverlapGateRedundantIff | src/config_shared.rs:316-324 | The position checks imply the reconstructed overlap if and only if the tolerance is at most half the slack. |
| ClaimGeometry.FaithfulDeathsStand | src/game/room.rs:2933-3072 | A faithful claim stands exactly when its ticks are in order and its other rules allow it. |
| ClaimGeometry.EatsTakeNegativeAsZero | src/game/policies/eat_claim.rs:120-134 | A negative visual distance, which the death policy refuses, gets the same verdict from the eat policy as a distance of zero. |
| ClaimGeometry.StandingDeathsAreNear | src/game/policies/enemy_death_claim.rs:44-128 | Every accepted death was lethal, in order, and of entities close to each other and to their reports. |
| ClaimGeometry.DeathStandsIff | src/game/policies/enemy_death_claim.rs:44-128 | All conditions under which a death claim stands, as one equivalence over both phases. |
| ClaimGeometry.EatsStandIff | src/game/policies/eat_claim.rs:120-200 | The same for eats of enemies and of players. |
| ClaimGeometry.DeathRefusalIsTrue | src/game/policies/enemy_death_claim.rs:44-128 | The reason given for a refused death is true of the claim. |
| ClaimGeometry.EatRefusalIsTrue | src/game/policies/eat_claim.rs:120-200 | The reason given for a refused eat of an enemy is true of the claim. |
| FillerEats.FillerEatPolicy.Evaluate | src/game/policies/filler_eat.rs:110-189 | Advances one attacker's run and gives its verdict; all other attackers are untouched. |
| FillerEats.FillerEatPolicy.NoteEatApplied | src/game/policies/filler_eat.rs:192-196 | Ends the run and arms the cooldown of that attacker alone. |
| FillerEats.FillerEatPolicy.ForgetPlayer | src/game/policies/filler_eat.rs:199-203 | Forgets the player as an attacker and every run against the player. |
| FillerEats.VerdictNeedsSustainedOverlap | src/game/policies/filler_eat.rs:129-188 | An eat or a rejection comes only after an overlap with one victim life on each of the last sustained ticks, and an eat only when no gate blocks. |
| FillerEats.SustainedOverlapEats | src/game/policies/filler_eat.rs:129-188 | From any state that is not cooling down, an unblocked sustained overlap ends in an eat. |
| FillerEats.EdibleIff | src/game/policies/filler_eat.rs:154-176 | No gate blocks if and only if the victim is alive, neither is in a safe zone, the victim is unprotected and has the smaller score and, if human, is ready and old enough in the room. |
| FillerEats.HardestReasonBlocks | src/game/policies/filler_eat.rs:152-176 | The reason reported is the first one that holds in the fixed order of severity. |
| FillerEats.EatsAgainAfterCooldown | src/game/policies/filler_eat.rs:116-121 | A sustained overlap that begins on the tick the cooldown ends is eaten at its last tick. |
| FillerEats.ForgettingTakesBothRoles | src/game/policies/filler_eat.rs:199-203 | Forgetting a player ends its own run and cooldown and every run against it, and nothing else. |
| FillerEats.EatsAreSpaced | src/game/policies/filler_eat.rs:116-121 | Two applied eats of an attacker not forgotten in between are at least the cooldown and a new sustained overlap apart. |
| FillerEats.RejectionsAreReported | src/game/policies/filler_eat.rs:178-188 | The rejections of a blocked run are its reasons without immediate repetitions. |
| FillerEats.SuccessiveReportsDiffer | src/game/policies/filler_eat.rs:178-188 | No two successive reports of a run carry the same reason. |
| FillerEats.ReportedOnceIffContiguous | src/game/policies/filler_eat.rs:72-74 | A run reports every reason at most once if and only if no reason returns after another one. |
| FillerEats.AlternatingReasonIsReportedTwice | src/game/policies/filler_eat.rs:72-74 | Three blocked ticks that report one reason twice. |
| DeathContacts.Player.RegisterDeathContact | src/game/player.rs:337-349 | The returned run length reaches n exactly when the last n events registered this enemy life. |
| DeathContacts.Player.ClearDeathContact | src/game/player.rs:353-358 | Ends the run. |
| DeathContacts.RunCountsLastContacts | src/game/player.rs:337-358 | The counter reaches n for an enemy life exactly when the last n events all registered it. |
| DeathContacts.KillIffPersistentContact | src/game/policies/enemy_contact.rs:92-102 | A tick decides a kill if and only if its enemy is inside the kill radius and stayed in reach in one life for the last three ticks, and an armed gate is confirmed. |
| DeathContacts.DecisionsAreExact | src/game/policies/enemy_death_candidate.rs:126-178 | Which decision the gate gives, for every input, with each delay's reason. |
| DeathContacts.ArmingOnlyDelaysKills | src/game/policies/enemy_death_candidate.rs:126-178 | Arming the gate turns some kills into delays and changes no other decision. |
| DeathContacts.ArmingNeverKillsSooner | src/game/policies/enemy_death_candidate.rs:126-178 | On the same ticks, the first kill with the gate armed is no earlier than the first without it. |
| DeathContacts.CloserContactStillKills | src/game/policies/enemy_death_candidate.rs:126-178 | A kill stays a kill when the drawn enemy or the contact is closer or the contact has lasted longer. |
| DeathContacts.CloserProjectionKillsIff | src/game/policies/enemy_death_candidate.rs:155-173 | With a closer projected distance a kill stays a kill if and only if the gate only observes or the prediction is not uncertain, and is delayed otherwise. |
| DeathContacts.CloserProjectionCanDelay | src/game/policies/enemy_death_candidate.rs:155-173 | An instance in which it is delayed. |

## Left out

Idealisations:

- f32 and f64 are reals: rounding, NaN and infinities are not modelled, nor the checks that refuse non-finite claim numbers. Square roots appear as numbers with the right square; nearest-player comparison uses squared distances.
- Counters and ticks are unbounded naturals except where the code saturates: filler-eat run counters, saturating tick differences and the suffix counter's 32 bits are modelled; overflow of u64 ticks, i64 crystals, contact counters and life counters is not.
- Clocks are arguments; times are nondecreasing where a lemma says so.
- Fresh tokens and player ids are never reused. Room, player and user ids are opaque.
- Random draws are arbitrary arguments.
- The scheduler is over-approximated: a join may pick any live room, eviction may take any rooms, the grace sweep releases its expired tokens in any order, a claim may be resolved in any batch while it is in time, and in any order within it except where sorted batches are asked for.

Parts of the modelled files that are not modelled:

- The keyframe sent for `RequestFullState` and the other control replies are opaque items of the reliable lane; the keyframe bypasses the room's reliable lane by design.
- One player's admission is one connection: `wire_joined` is modelled from the moment its channels exist.
- Fillers take no seat in `RoomSeats`, as in the code; their lifecycle and rebalancing are not modelled.
- ClaimResolution.EatenEnemyCannotKillLater: shields, scores, admission gates, claim ids, view skew and geometry are one flag there; the policies themselves are in `ClaimGeometry`.
- The rows that the drain's query returns are an argument of the sweep; row time stamps and failure texts of the outbox and the logging of the migration are left out.
- The per-kind reply drop policy and the log line of the first shed message in websocket.rs: one-branch mappings.
- Goal scoring, personalities, replan cadence and flee targets of filler_bot.rs: heuristics without a contract.
- `record` in contact_history.rs: a field-by-field copy into the frame that `PushFrame` takes.
- Portals, safe zones and maze generation of map.rs; respawn and player movement of ai.rs and player.rs.

Not modelled at all: HTTP and WebSocket framing, JWT and hashing, the database engine,
serialisation, telemetry, logging, metrics, dashboards, configuration parsing, the
client, code generators and scripts.
