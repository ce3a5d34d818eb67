/**
 The resume-token protocol as a state machine. The program guards the token map and
 each room with separate locks; a step here is one critical section, and whatever a
 call still has to do after releasing a lock is a pending operation in the state.
 Every interleaving of lock-sized steps is a run of this machine.
 */
module ResumeProtocol {
  import opened Wrappers
  import opened RoomSeats

  type Token = nat

  /** One entry of the token map. */
  datatype Slot =
    | Active(room: RoomId, player: PlayerId, user: UserId)
    | Held(room: RoomId, user: UserId, resume: PlayerState, deadline: nat)

  /** What a resume call took out of the map. */
  datatype Claim =
    | HeldClaim(resume: PlayerState, claimedAt: nat, deadline: nat)
    | HandoffClaim(player: PlayerId)

  /** The rest of a call between two of its critical sections. */
  datatype Op =
    | Joining(user: UserId, room: RoomId, attempt: nat)
    | Repicking(user: UserId, attempt: nat)
    | Registering(user: UserId, room: RoomId, player: PlayerId)
    | DropClaimed(token: Token, room: RoomId, player: PlayerId, user: UserId)
    | DropInRoom(token: Token, room: RoomId, player: PlayerId, user: UserId)
    | DropHeld(token: Token, room: RoomId, user: UserId, resume: PlayerState)
    | Polling(wanted: Token, user: UserId, waited: nat)
    | Resuming(token: Token, user: UserId, room: RoomId, claim: Claim)
    | ResumeInRoom(token: Token, user: UserId, room: RoomId, claim: Claim)
    | Releasing(token: Token, room: RoomId)
    | ReleaseInRoom(token: Token, room: RoomId)
    | Leaving(room: RoomId, player: PlayerId)
    | Purging(gone: set<RoomId>)

  /** History, kept for stating whole-run properties; no step reads it. */
  datatype Event =
    | Detached(token: Token, room: RoomId, player: PlayerId, user: UserId, st: PlayerState)
    | Parked(token: Token, user: UserId, deadline: nat)
    | Readmitted(token: Token, room: RoomId, player: PlayerId, user: UserId, st: PlayerState, claim: Claim)

  /** A call in flight, or the release the grace sweep owes for one expired token. */
  datatype OpId = Call(id: nat) | Swept(expired: Token)

  datatype Sys = Sys(
    // Every room ever created: a room evicted from the map is still reachable through
    // the Arc some call holds.
    rooms: map<RoomId, RoomState>,
    live: set<RoomId>,
    sessions: map<Token, Slot>,
    ops: map<OpId, Op>,
    issuedTokens: set<Token>,
    issuedPlayers: set<PlayerId>,
    graceMs: nat,
    log: seq<Event>)

  const MAX_JOIN_ATTEMPTS: nat := 64
  const RESUME_RACE_WAIT_MS: nat := 300
  const RESUME_POLL_MS: nat := 50

  // ---- what an operation or a slot is responsible for ----

  function OpToken(op: Op): Option<Token> {
    match op
    case DropClaimed(t, _, _, _) => Some(t)
    case DropInRoom(t, _, _, _) => Some(t)
    case DropHeld(t, _, _, _) => Some(t)
    case Resuming(t, _, _, _) => Some(t)
    case ResumeInRoom(t, _, _, _) => Some(t)
    case Releasing(t, _) => Some(t)
    case ReleaseInRoom(t, _) => Some(t)
    case _ => None
  }

  /** The room in which the operation owns a reservation it has not settled yet. */
  function OpOwes(op: Op): Option<RoomId> {
    match op
    case DropHeld(_, r, _, _) => Some(r)
    case Resuming(_, _, r, HeldClaim(_, _, _)) => Some(r)
    case ResumeInRoom(_, _, r, HeldClaim(_, _, _)) => Some(r)
    case Releasing(_, r) => Some(r)
    case ReleaseInRoom(_, r) => Some(r)
    case _ => None
  }

  function SlotOwes(slot: Slot): Option<RoomId> {
    if slot.Held? then Some(slot.room) else None
  }

  /** The live entity the operation is entitled to act on. */
  function OpNames(op: Op): Option<PlayerId> {
    match op
    case Registering(_, _, p) => Some(p)
    case DropClaimed(_, _, p, _) => Some(p)
    case DropInRoom(_, _, p, _) => Some(p)
    case Resuming(_, _, _, HandoffClaim(p)) => Some(p)
    case ResumeInRoom(_, _, _, HandoffClaim(p)) => Some(p)
    case _ => None
  }

  function SlotNames(slot: Slot): Option<PlayerId> {
    if slot.Active? then Some(slot.player) else None
  }

  // ---- the critical sections of the token map ----

  datatype ClaimResult =
    | Absent
    | WrongUser
    | Expired(room: RoomId)
    | ClaimedHeld(room: RoomId, resume: PlayerState, deadline: nat)
    | HandoffActive(room: RoomId, player: PlayerId)

  /** The peek of `resume_room`, before anything is removed. */
  function Peek(sessions: map<Token, Slot>, t: Token, user: UserId, now: nat): ClaimResult {
    if t !in sessions then Absent
    else if sessions[t].user != user then WrongUser
    else match sessions[t]
      case Active(r, p, _) => HandoffActive(r, p)
      case Held(r, _, st, deadline) => if now > deadline then Expired(r) else ClaimedHeld(r, st, deadline)
  }

  predicate DropMatches(sessions: map<Token, Slot>, t: Token, r: RoomId, p: PlayerId, user: UserId) {
    t in sessions && sessions[t] == Active(r, p, user)
  }

  predicate HeldPast(slot: Slot, now: nat) {
    slot.Held? && now > slot.deadline
  }

  function ExpiredAt(sessions: map<Token, Slot>, now: nat): map<Token, Slot> {
    map t | t in sessions && HeldPast(sessions[t], now) :: sessions[t]
  }

  function PurgeRooms(sessions: map<Token, Slot>, gone: set<RoomId>): map<Token, Slot> {
    map t | t in sessions && sessions[t].room !in gone :: sessions[t]
  }

  // ---- steps ----

  datatype Step =
    | JoinPick(user: UserId, r: RoomId)
    | JoinRepick(r: RoomId)
    | JoinAdmit(p: PlayerId, st: PlayerState, tooLate: bool)
    | RegisterToken(t: Token)
    | DropClaim(t: Token, r: RoomId, p: PlayerId, user: UserId)
    | DropFindRoom
    | DropHold
    | DropPark(now: nat)
    | ResumeCall(user: UserId, t: Token)
    | ResumeTry(now: nat)
    | ResumeFindRoom
    | ResumeAdmit(p: PlayerId)
    | ReleaseFindRoom
    | ReleaseRun
    | Forget(t: Token)
    | LeaveCall(r: RoomId, p: PlayerId)
    | LeaveRun

  /**
   What one critical section changes: the operation's continuation, at most one token,
   at most one room, and the fresh identifiers it minted.
   */
  datatype Effect = Effect(
    op: Option<Op>,
    slot: Option<(Token, Option<Slot>)>,
    room: Option<(RoomId, RoomState)>,
    player: Option<PlayerId>,
    token: Option<Token>,
    events: seq<Event>)

  const NOTHING := Effect(None, None, None, None, None, [])

  function Becomes(op: Op): Effect {
    NOTHING.(op := Some(op))
  }

  /** May the call `o` take this step now? First sections need a fresh call id. */
  predicate Enabled(s: Sys, o: OpId, step: Step) {
    match step
    case JoinPick(_, r) => o.Call? && o !in s.ops && r in s.live && r in s.rooms
    case JoinRepick(r) => o in s.ops && s.ops[o].Repicking? && r in s.live && r in s.rooms
    case JoinAdmit(p, _, _) =>
      o in s.ops && s.ops[o].Joining? && s.ops[o].room in s.rooms && p !in s.issuedPlayers
    case RegisterToken(t) => o in s.ops && s.ops[o].Registering? && t !in s.issuedTokens
    case DropClaim(_, _, _, _) => o.Call? && o !in s.ops
    case DropFindRoom => o in s.ops && s.ops[o].DropClaimed?
    case DropHold => o in s.ops && s.ops[o].DropInRoom? && s.ops[o].room in s.rooms
    case DropPark(_) => o in s.ops && s.ops[o].DropHeld?
    case ResumeCall(_, _) => o.Call? && o !in s.ops
    case ResumeTry(_) => o in s.ops && s.ops[o].Polling?
    case ResumeFindRoom => o in s.ops && s.ops[o].Resuming?
    case ResumeAdmit(p) =>
      o in s.ops && s.ops[o].ResumeInRoom? && s.ops[o].room in s.rooms && p !in s.issuedPlayers
    case ReleaseFindRoom => o in s.ops && s.ops[o].Releasing?
    case ReleaseRun => o in s.ops && s.ops[o].ReleaseInRoom? && s.ops[o].room in s.rooms
    case Forget(_) => o.Call? && o !in s.ops
    case LeaveCall(_, _) => o.Call? && o !in s.ops
    case LeaveRun => o in s.ops && s.ops[o].Leaving? && s.ops[o].room in s.rooms
  }

  function EffectOf(s: Sys, o: OpId, step: Step): Effect
    requires Enabled(s, o, step)
  {
    match step
    case JoinPick(user, r) => Becomes(Joining(user, r, 0))
    case JoinRepick(r) => Becomes(Joining(s.ops[o].user, r, s.ops[o].attempt))
    case JoinAdmit(p, st, tooLate) => AdmitEffect(s.rooms[s.ops[o].room], s.ops[o], p, st, tooLate)
    case RegisterToken(t) =>
      var op := s.ops[o];
      NOTHING.(slot := Some((t, Some(Active(op.room, op.player, op.user)))), token := Some(t))
    case DropClaim(t, r, p, user) =>
      if DropMatches(s.sessions, t, r, p, user)
      then Becomes(DropClaimed(t, r, p, user)).(slot := Some((t, None)))
      else NOTHING
    case DropFindRoom =>
      var op := s.ops[o];
      if op.room in s.live then Becomes(DropInRoom(op.token, op.room, op.player, op.user)) else NOTHING
    case DropHold => DropHoldEffect(s.rooms[s.ops[o].room], s.ops[o])
    case DropPark(now) =>
      var op := s.ops[o];
      var deadline := now + s.graceMs;
      NOTHING.(slot := Some((op.token, Some(Held(op.room, op.user, op.resume, deadline)))),
               events := [Parked(op.token, op.user, deadline)])
    case ResumeCall(user, t) => Becomes(Polling(t, user, 0))
    case ResumeTry(now) => TryEffect(s.sessions, s.ops[o], now)
    case ResumeFindRoom =>
      var op := s.ops[o];
      if op.room in s.live then Becomes(ResumeInRoom(op.token, op.user, op.room, op.claim)) else NOTHING
    case ResumeAdmit(p) => ResumeEffect(s.rooms[s.ops[o].room], s.ops[o], p)
    case ReleaseFindRoom =>
      var op := s.ops[o];
      if op.room in s.live then Becomes(ReleaseInRoom(op.token, op.room)) else NOTHING
    case ReleaseRun =>
      var op := s.ops[o];
      NOTHING.(room := Some((op.room, s.rooms[op.room].Release())))
    case Forget(t) =>
      if t !in s.sessions then NOTHING
      else NOTHING.(slot := Some((t, None)),
                    op := if s.sessions[t].Held? then Some(Releasing(t, s.sessions[t].room)) else None)
    case LeaveCall(r, p) => if r in s.live then Becomes(Leaving(r, p)) else NOTHING
    case LeaveRun =>
      var op := s.ops[o];
      NOTHING.(room := Some((op.room, s.rooms[op.room].Remove(op.player))))
  }

  function AdmitEffect(room: RoomState, op: Op, p: PlayerId, st: PlayerState, tooLate: bool): Effect
    requires op.Joining?
  {
    if room.JoinVerdict(tooLate).None? then
      Becomes(Registering(op.user, op.room, p)).(
        room := Some((op.room, room.TryAdd(p, Seat(op.user, st), tooLate))), player := Some(p))
    else if op.attempt + 1 < MAX_JOIN_ATTEMPTS then Becomes(Repicking(op.user, op.attempt + 1))
    else NOTHING
  }

  /** Under the room lock: an ended match keeps nothing, a live one reserves the seat. */
  function DropHoldEffect(room: RoomState, op: Op): Effect
    requires op.DropInRoom?
  {
    if !room.active then NOTHING.(room := Some((op.room, room.Remove(op.player))))
    else if op.player !in room.players then NOTHING
    else
      var st := room.players[op.player].st;
      Becomes(DropHeld(op.token, op.room, op.user, st)).(
        room := Some((op.room, room.Hold(op.player))),
        events := [Detached(op.token, op.room, op.player, op.user, st)])
  }

  function TryEffect(sessions: map<Token, Slot>, op: Op, now: nat): Effect
    requires op.Polling?
  {
    var take := Some((op.wanted, None));
    match Peek(sessions, op.wanted, op.user, now)
    case Absent =>
      if op.waited >= RESUME_RACE_WAIT_MS then NOTHING
      else Becomes(Polling(op.wanted, op.user, op.waited + RESUME_POLL_MS))
    case WrongUser => NOTHING
    case Expired(r) => Becomes(Releasing(op.wanted, r)).(slot := take)
    case ClaimedHeld(r, st, deadline) =>
      Becomes(Resuming(op.wanted, op.user, r, HeldClaim(st, now, deadline))).(slot := take)
    case HandoffActive(r, p) =>
      Becomes(Resuming(op.wanted, op.user, r, HandoffClaim(p))).(slot := take)
  }

  /** Under one room lock: a handoff first detaches the stale entity, then both kinds readmit. */
  function ResumeEffect(room: RoomState, op: Op, p: PlayerId): Effect
    requires op.ResumeInRoom?
  {
    match op.claim
    case HeldClaim(st, _, _) => ReadmitEffect(room, op, p, st, [])
    case HandoffClaim(stale) =>
      if stale !in room.players then NOTHING
      else
        var st := room.players[stale].st;
        ReadmitEffect(room.Hold(stale), op, p, st, [Detached(op.token, op.room, stale, op.user, st)])
  }

  function ReadmitEffect(room: RoomState, op: Op, p: PlayerId, st: PlayerState, before: seq<Event>): Effect
    requires op.ResumeInRoom?
  {
    var after := NOTHING.(room := Some((op.room, room.Resume(p, Seat(op.user, st)))), events := before);
    if room.ResumeVerdict().None?
    then after.(op := Some(Registering(op.user, op.room, p)),
                player := Some(p),
                events := before + [Readmitted(op.token, op.room, p, op.user, st, op.claim)])
    else after
  }

  // ---- putting an effect into the state ----

  function SetOp(ops: map<OpId, Op>, o: OpId, op: Option<Op>): map<OpId, Op> {
    if op.Some? then ops[o := op.value] else ops - {o}
  }

  function SetSlot(sessions: map<Token, Slot>, t: Token, slot: Option<Slot>): map<Token, Slot> {
    if slot.Some? then sessions[t := slot.value] else sessions - {t}
  }

  function Commit(s: Sys, o: OpId, e: Effect): Sys {
    s.(ops := SetOp(s.ops, o, e.op),
       sessions := if e.slot.Some? then SetSlot(s.sessions, e.slot.value.0, e.slot.value.1) else s.sessions,
       rooms := if e.room.Some? then s.rooms[e.room.value.0 := e.room.value.1] else s.rooms,
       issuedPlayers := if e.player.Some? then s.issuedPlayers + {e.player.value} else s.issuedPlayers,
       issuedTokens := if e.token.Some? then s.issuedTokens + {e.token.value} else s.issuedTokens,
       log := s.log + e.events)
  }

  // ---- everything that can happen ----

  datatype Action =
    | CallStep(o: OpId, step: Step)
    | CreateRoom(r: RoomId, maxPlayers: nat)
    | RoomTick(r: RoomId, players: map<PlayerId, Seat>)   // the simulation moves and scores players
    | RoomEnd(r: RoomId)
    | GraceSweep(now: nat)
    | Evict(o: OpId, gone: set<RoomId>)                   // after a panic, or the inactive-room sweep
    | Purge(o: OpId)

  /** The simulation changes how seated players stand, not who sits where. */
  predicate SameSeating(a: map<PlayerId, Seat>, b: map<PlayerId, Seat>) {
    a.Keys == b.Keys && forall p | p in a :: a[p].user == b[p].user
  }

  predicate CanHappen(s: Sys, a: Action) {
    match a
    case CallStep(o, step) => Enabled(s, o, step)
    case CreateRoom(r, _) => r !in s.rooms
    case RoomTick(r, players) => r in s.rooms && SameSeating(s.rooms[r].players, players)
    case RoomEnd(r) => r in s.rooms
    case GraceSweep(_) => true
    case Evict(o, gone) => o.Call? && o !in s.ops && gone <= s.live
    case Purge(o) => o in s.ops && s.ops[o].Purging?
  }

  /** The sweep removes every expired token in one critical section and then owes one release for each. */
  function Sweep(s: Sys, now: nat): Sys {
    var expired := ExpiredAt(s.sessions, now);
    s.(sessions := s.sessions - expired.Keys, ops := s.ops + SweptOps(expired))
  }

  function SweptOps(expired: map<Token, Slot>): map<OpId, Op> {
    map id | id in (set t | t in expired :: Swept(t)) :: Releasing(id.expired, expired[id.expired].room)
  }

  function Next(s: Sys, a: Action): Sys
    requires CanHappen(s, a)
  {
    match a
    case CallStep(o, step) => Commit(s, o, EffectOf(s, o, step))
    case CreateRoom(r, n) => s.(rooms := s.rooms[r := RoomState(true, map[], 0, n)], live := s.live + {r})
    case RoomTick(r, players) => s.(rooms := s.rooms[r := s.rooms[r].(players := players)])
    case RoomEnd(r) => s.(rooms := s.rooms[r := s.rooms[r].(active := false)])
    case GraceSweep(now) => Sweep(s, now)
    case Evict(o, gone) => s.(live := s.live - gone, ops := s.ops[o := Purging(gone)])
    case Purge(o) => s.(sessions := PurgeRooms(s.sessions, s.ops[o].gone), ops := s.ops - {o})
  }

  function Init(graceMs: nat): Sys {
    Sys(map[], {}, map[], map[], {}, {}, graceMs, [])
  }

  ghost predicate Follows(s: Sys, t: Sys) {
    exists a :: CanHappen(s, a) && t == Next(s, a)
  }

  ghost predicate StepsTo(states: seq<Sys>, i: nat)
    requires 0 < i < |states|
  {
    Follows(states[i - 1], states[i])
  }

  /** `states` is a run: it starts empty and every state follows from the one before. */
  ghost predicate Run(states: seq<Sys>, graceMs: nat) {
    && |states| > 0
    && states[0] == Init(graceMs)
    && forall i | 0 < i < |states| :: StepsTo(states, i)
  }
}
