/**
 What the calls of the reconnect protocol achieve, said of the two maps and the rooms alone: exactly
 which steps put a token or a player where, what each section leaves to the next, and what whole calls
 come to when other calls run between their sections.
 */
module ResumeCalls {
  import opened Wrappers
  import opened GameMaps
  import opened RoomSeats
  import opened ResumeProtocol
  import opened ResumeInvariants
  import opened ResumeRuns
  import opened ResumeHistory
  import opened ResumeTheorems

  // ---- tokens ----

  /** This action takes the token out of the map. */
  predicate Removes(s: Sys, a: Action, t: Token)
    requires CanHappen(s, a) && t in s.sessions
  {
    var slot := s.sessions[t];
    match a
    case CallStep(_, DropClaim(t', r, p, user)) => t' == t && slot == Active(r, p, user)
    case CallStep(o, ResumeTry(_)) => s.ops[o].wanted == t && s.ops[o].user == slot.user
    case CallStep(_, Forget(t')) => t' == t
    case GraceSweep(now) => slot.Held? && slot.deadline < now
    case Purge(o) => slot.room in s.ops[o].gone
    case _ => false
  }

  /** This action puts the token into the map, as this slot. */
  predicate Inserts(s: Sys, a: Action, t: Token, slot: Slot)
    requires CanHappen(s, a)
  {
    match a
    case CallStep(o, RegisterToken(t')) => t' == t && slot == Active(s.ops[o].room, s.ops[o].player, s.ops[o].user)
    case CallStep(o, DropPark(now)) =>
      s.ops[o].token == t && slot == Held(s.ops[o].room, s.ops[o].user, s.ops[o].resume, now + s.graceMs)
    case _ => false
  }

  lemma CallSlot(s: Sys, o: OpId, step: Step)
    requires Enabled(s, o, step)
    ensures var change := EffectOf(s, o, step).slot;
            && (change.Some? && change.value.1.None? ==>
                  change.value.0 in s.sessions ==> Removes(s, CallStep(o, step), change.value.0))
            && (change.Some? && change.value.1.Some? ==>
                  Inserts(s, CallStep(o, step), change.value.0, change.value.1.value))
            && (forall t | t in s.sessions && Removes(s, CallStep(o, step), t) :: change == Some((t, None)))
            && (forall t: Token, slot: Slot | Inserts(s, CallStep(o, step), t, slot) :: change == Some((t, Some(slot))))
  {
  }

  lemma CallTokens(s: Sys, o: OpId, step: Step, t: Token, slot: Slot)
    requires OneCarrier(s) && Enabled(s, o, step)
    ensures var a := CallStep(o, step);
            if t in s.sessions
            then At(Next(s, a).sessions, t) == if Removes(s, a, t) then None else Some(s.sessions[t])
            else At(Next(s, a).sessions, t) == Some(slot) <==> Inserts(s, a, t, slot)
  {
    CallSlot(s, o, step);
    hide EffectOf;
    if t in s.sessions {
      assert forall slot' :: !Inserts(s, CallStep(o, step), t, slot');
    }
  }

  lemma OtherTokens(s: Sys, a: Action, t: Token, slot: Slot)
    requires CanHappen(s, a) && !a.CallStep?
    ensures if t in s.sessions
            then At(Next(s, a).sessions, t) == if Removes(s, a, t) then None else Some(s.sessions[t])
            else t !in Next(s, a).sessions
  {
  }

  /**
   A token leaves the map exactly when its own connection drops, its own user resumes with it, it is
   given up, it has expired at a sweep, or its room is purged; until then its slot does not change.
   */
  lemma TokenLeavesIff(s: Sys, a: Action, t: Token)
    requires Safe(s) && CanHappen(s, a) && t in s.sessions
    ensures At(Next(s, a).sessions, t) == if Removes(s, a, t) then None else Some(s.sessions[t])
  {
    hide Next;
    if a.CallStep? {
      CallTokens(s, a.o, a.step, t, s.sessions[t]);
    } else {
      OtherTokens(s, a, t, s.sessions[t]);
    }
  }

  /** A token enters the map exactly when a connection registers it, or a drop parks it with its deadline. */
  lemma TokenEntersIff(s: Sys, a: Action, t: Token, slot: Slot)
    requires Safe(s) && CanHappen(s, a) && t !in s.sessions
    ensures At(Next(s, a).sessions, t) == Some(slot) <==> Inserts(s, a, t, slot)
  {
    hide Next;
    if a.CallStep? {
      CallTokens(s, a.o, a.step, t, slot);
    } else {
      OtherTokens(s, a, t, slot);
    }
  }

  // ---- seats ----

  /** This action seats a new player in the room. */
  predicate Arrives(s: Sys, a: Action, r: RoomId, p: PlayerId, seat: Seat)
    requires CanHappen(s, a) && r in s.rooms
  {
    var room := s.rooms[r];
    match a
    case CallStep(o, JoinAdmit(p', st, tooLate)) =>
      && p' == p && s.ops[o].room == r && seat == Seat(s.ops[o].user, st)
      && room.active && |room.players| + room.reserved < room.maxPlayers && !tooLate
    case CallStep(o, ResumeAdmit(p')) =>
      && p' == p && s.ops[o].room == r && room.active
      && (match s.ops[o].claim
          case HeldClaim(st, _, _) => seat == Seat(s.ops[o].user, st)
          case HandoffClaim(stale) => stale in room.players && seat == Seat(s.ops[o].user, room.players[stale].st))
    case _ => false
  }

  /** This action takes the player out of the room. */
  predicate Departs(s: Sys, a: Action, r: RoomId, p: PlayerId)
    requires CanHappen(s, a)
  {
    match a
    case CallStep(o, LeaveRun) => s.ops[o] == Leaving(r, p)
    case CallStep(o, DropHold) => s.ops[o].room == r && s.ops[o].player == p
    case CallStep(o, ResumeAdmit(_)) => s.ops[o].room == r && s.ops[o].claim == HandoffClaim(p)
    case _ => false
  }

  /** What this action does to the seats that the room promises. */
  function Promises(s: Sys, a: Action, r: RoomId): int
    requires CanHappen(s, a) && r in s.rooms
  {
    match a
    case CallStep(o, DropHold) =>
      if s.ops[o].room == r && s.rooms[r].active && s.ops[o].player in s.rooms[r].players then 1 else 0
    case CallStep(o, ResumeAdmit(_)) => if s.ops[o].room == r && s.ops[o].claim.HeldClaim? then -1 else 0
    case CallStep(o, ReleaseRun) => if s.ops[o].room == r then -1 else 0
    case _ => 0
  }

  /** Whether the player has this seat after an action. */
  ghost predicate SeatsFit(s: Sys, a: Action, r: RoomId, p: PlayerId, seat: Seat, after: RoomState)
    requires CanHappen(s, a) && r in s.rooms
  {
    var room := s.rooms[r];
    && after.maxPlayers == room.maxPlayers && after.active == (room.active && a != RoomEnd(r))
    && (a.RoomTick? && a.r == r ==> after.players == a.players)
    && after.reserved == room.reserved + Promises(s, a, r)
    && (p in room.players ==> (p !in after.players <==> Departs(s, a, r, p)))
    && (p in room.players && p in after.players ==> a.RoomTick? || after.players[p] == room.players[p])
    && (p !in room.players ==> (At(after.players, p) == Some(seat) <==> Arrives(s, a, r, p, seat)))
  }

  /** The room as this effect leaves it. */
  function RoomAfter(s: Sys, e: Effect, r: RoomId): RoomState
    requires r in s.rooms
  {
    if e.room.Some? && e.room.value.0 == r then e.room.value.1 else s.rooms[r]
  }

  lemma CommitRooms(s: Sys, o: OpId, e: Effect, r: RoomId)
    requires r in s.rooms
    ensures Commit(s, o, e).rooms[r] == RoomAfter(s, e, r)
  {
  }

  lemma JoinFits(s: Sys, o: OpId, step: Step, r: RoomId, p: PlayerId, seat: Seat)
    requires Seating(s) && step.JoinAdmit? && Enabled(s, o, step) && r in s.rooms
    ensures SeatsFit(s, CallStep(o, step), r, p, seat, RoomAfter(s, EffectOf(s, o, step), r))
  {
  }

  lemma DropFits(s: Sys, o: OpId, r: RoomId, p: PlayerId, seat: Seat)
    requires Enabled(s, o, DropHold) && r in s.rooms
    ensures SeatsFit(s, CallStep(o, DropHold), r, p, seat, RoomAfter(s, EffectOf(s, o, DropHold), r))
  {
  }

  /** A call that owes a reservation in this room finds one. */
  lemma OwingFindsReserved(s: Sys, o: OpId)
    requires Conserved(s) && o in s.ops && OpOwes(s.ops[o]).Some? && OpOwes(s.ops[o]).value in s.rooms
    ensures s.rooms[OpOwes(s.ops[o]).value].reserved > 0
  {
    assert ConservedIn(s, OpOwes(s.ops[o]).value);
    OwingOpCounts(s, o);
  }

  /** The players of a room in which a resume has run: stale entity out, new one in unless the match has ended. */
  function Resumed(room: RoomState, op: Op, p: PlayerId): map<PlayerId, Seat>
    requires op.ResumeInRoom?
  {
    match op.claim
    case HeldClaim(st, _, _) => if room.active then room.players[p := Seat(op.user, st)] else room.players
    case HandoffClaim(stale) =>
      if stale !in room.players then room.players
      else if room.active then (room.players - {stale})[p := Seat(op.user, room.players[stale].st)]
      else room.players - {stale}
  }

  lemma ResumeOutcome(room: RoomState, op: Op, p: PlayerId)
    requires op.ResumeInRoom? && room.SeatsWithinLimit() && p !in room.players
    requires op.claim.HeldClaim? ==> room.reserved > 0
    ensures var e := ResumeEffect(room, op, p);
            var reserved := room.reserved - if op.claim.HeldClaim? then 1 else 0;
            if e.room.Some?
            then e.room.value == (op.room, RoomState(room.active, Resumed(room, op, p), reserved, room.maxPlayers))
            else Resumed(room, op, p) == room.players && reserved == room.reserved
  {
    if op.claim.HandoffClaim? {
      RemoveCounts(room, op.claim.player);
    }
  }

  lemma ResumeFinds(s: Sys, o: OpId, p: PlayerId)
    requires Conserved(s) && Seated(s) && Seating(s) && Enabled(s, o, ResumeAdmit(p))
    ensures var op := s.ops[o];
            && s.rooms[op.room].SeatsWithinLimit() && p !in s.rooms[op.room].players
            && (op.claim.HeldClaim? ==> s.rooms[op.room].reserved > 0)
  {
    if s.ops[o].claim.HeldClaim? {
      OwingFindsReserved(s, o);
    }
  }

  lemma ResumedFits(s: Sys, o: OpId, p': PlayerId, r: RoomId, p: PlayerId, seat: Seat)
    requires Enabled(s, o, ResumeAdmit(p')) && r == s.ops[o].room && p' !in s.rooms[r].players
    requires s.ops[o].claim.HeldClaim? ==> s.rooms[r].reserved > 0
    ensures var room, op := s.rooms[r], s.ops[o];
            var reserved := room.reserved - if op.claim.HeldClaim? then 1 else 0;
            SeatsFit(s, CallStep(o, ResumeAdmit(p')), r, p, seat,
                     RoomState(room.active, Resumed(room, op, p'), reserved, room.maxPlayers))
  {
  }

  lemma ResumeFits(s: Sys, o: OpId, p': PlayerId, r: RoomId, p: PlayerId, seat: Seat)
    requires Conserved(s) && Seated(s) && Seating(s) && Enabled(s, o, ResumeAdmit(p')) && r in s.rooms
    ensures SeatsFit(s, CallStep(o, ResumeAdmit(p')), r, p, seat, RoomAfter(s, EffectOf(s, o, ResumeAdmit(p')), r))
  {
    ResumeFinds(s, o, p');
    hide Conserved, Seated, Seating, ResumeEffect, Resumed;
    ResumeOutcome(s.rooms[s.ops[o].room], s.ops[o], p');
    if r == s.ops[o].room {
      ResumedFits(s, o, p', r, p, seat);
      hide SeatsFit;
    }
  }

  predicate WorksOnRoom(step: Step) {
    step.JoinAdmit? || step.DropHold? || step.ResumeAdmit? || step.ReleaseRun? || step.LeaveRun?
  }

  lemma OthersLeaveRooms(s: Sys, o: OpId, step: Step)
    requires Enabled(s, o, step) && !WorksOnRoom(step)
    ensures EffectOf(s, o, step).room.None?
  {
  }

  lemma ReleaseFits(s: Sys, o: OpId, r: RoomId, p: PlayerId, seat: Seat)
    requires Conserved(s) && Enabled(s, o, ReleaseRun) && r in s.rooms
    ensures SeatsFit(s, CallStep(o, ReleaseRun), r, p, seat, RoomAfter(s, EffectOf(s, o, ReleaseRun), r))
  {
    OwingFindsReserved(s, o);
    hide Conserved;
  }

  lemma LeaveFits(s: Sys, o: OpId, r: RoomId, p: PlayerId, seat: Seat)
    requires Enabled(s, o, LeaveRun) && r in s.rooms
    ensures SeatsFit(s, CallStep(o, LeaveRun), r, p, seat, RoomAfter(s, EffectOf(s, o, LeaveRun), r))
  {
  }

  lemma QuietFits(s: Sys, o: OpId, step: Step, r: RoomId, p: PlayerId, seat: Seat)
    requires Enabled(s, o, step) && r in s.rooms && !WorksOnRoom(step) && EffectOf(s, o, step).room.None?
    ensures SeatsFit(s, CallStep(o, step), r, p, seat, RoomAfter(s, EffectOf(s, o, step), r))
  {
  }

  lemma CallSeats(s: Sys, o: OpId, step: Step, r: RoomId, p: PlayerId, seat: Seat)
    requires Safe(s) && Enabled(s, o, step) && r in s.rooms
    ensures SeatsFit(s, CallStep(o, step), r, p, seat, Next(s, CallStep(o, step)).rooms[r])
  {
    hide EffectOf, SeatsFit, Conserved, Seated, Seating, Structured, OneCarrier, NamesIssued, OneNamer;
    CommitRooms(s, o, EffectOf(s, o, step), r);
    if step.JoinAdmit? {
      JoinFits(s, o, step, r, p, seat);
    } else if step.DropHold? {
      DropFits(s, o, r, p, seat);
    } else if step.ResumeAdmit? {
      ResumeFits(s, o, step.p, r, p, seat);
    } else if step.ReleaseRun? {
      ReleaseFits(s, o, r, p, seat);
    } else if step.LeaveRun? {
      LeaveFits(s, o, r, p, seat);
    } else {
      OthersLeaveRooms(s, o, step);
      QuietFits(s, o, step, r, p, seat);
    }
  }

  lemma OtherSeats(s: Sys, a: Action, r: RoomId, p: PlayerId, seat: Seat)
    requires CanHappen(s, a) && !a.CallStep? && r in s.rooms
    ensures r in Next(s, a).rooms && SeatsFit(s, a, r, p, seat, Next(s, a).rooms[r])
  {
  }

  /**
   Exactly which actions change a room's seats and promises: who arrives and in which state, who
   departs, and how many seats are promised. A returning player is turned away only by an ended match.
   */
  lemma SeatsChangeExactly(s: Sys, a: Action, r: RoomId, p: PlayerId, seat: Seat)
    requires Safe(s) && CanHappen(s, a) && r in s.rooms
    ensures r in Next(s, a).rooms && SeatsFit(s, a, r, p, seat, Next(s, a).rooms[r])
  {
    if a.CallStep? {
      CallSeats(s, a.o, a.step, r, p, seat);
      hide SeatsFit, EffectOf, Safe;
    } else {
      hide Next, SeatsFit;
      OtherSeats(s, a, r, p, seat);
    }
  }

  /** Exactly which actions bring a room into the map or take it out. */
  lemma LiveRoomsChangeExactly(s: Sys, a: Action, r: RoomId)
    requires CanHappen(s, a)
    ensures r in Next(s, a).live
       <==> (r in s.live && !(a.Evict? && r in a.gone)) || (a.CreateRoom? && a.r == r)
    ensures a.CreateRoom? && a.r == r ==>
              r in Next(s, a).rooms && Next(s, a).rooms[r] == RoomState(true, map[], 0, a.maxPlayers)
    ensures a.Evict? ==> At(Next(s, a).ops, a.o) == Some(Purging(a.gone))
    ensures a.Purge? ==> a.o !in Next(s, a).ops
  {
  }

  // ---- sections ----

  /** What a resume attempt does next, read off the slot it finds. */
  function AfterTry(s: Sys, op: Op, now: nat): Option<Op>
    requires op.Polling?
  {
    if op.wanted !in s.sessions then
      if op.waited >= 300 then None else Some(Polling(op.wanted, op.user, op.waited + 50))
    else
      var slot := s.sessions[op.wanted];
      if slot.user != op.user then None
      else if slot.Active? then Some(Resuming(op.wanted, op.user, slot.room, HandoffClaim(slot.player)))
      else if now <= slot.deadline
      then Some(Resuming(op.wanted, op.user, slot.room, HeldClaim(slot.resume, now, slot.deadline)))
      else Some(Releasing(op.wanted, slot.room))
  }

  lemma TryGoesOn(s: Sys, o: OpId, now: nat)
    requires Enabled(s, o, ResumeTry(now))
    ensures At(Next(s, CallStep(o, ResumeTry(now))).ops, o) == AfterTry(s, s.ops[o], now)
  {
  }

  /** The owner of a held token is let in exactly up to the deadline; with an expired one, only its seat is released. */
  lemma HeldTokenIsClaimedIffInTime(s: Sys, o: OpId, now: nat)
    requires Enabled(s, o, ResumeTry(now)) && s.ops[o].wanted in s.sessions
    requires s.sessions[s.ops[o].wanted].Held? && s.sessions[s.ops[o].wanted].user == s.ops[o].user
    ensures var slot := s.sessions[s.ops[o].wanted];
            var after := Next(s, CallStep(o, ResumeTry(now)));
            && (At(after.ops, o) == Some(Resuming(s.ops[o].wanted, s.ops[o].user, slot.room,
                                                  HeldClaim(slot.resume, now, slot.deadline)))
                <==> now <= slot.deadline)
            && (At(after.ops, o) == Some(Releasing(s.ops[o].wanted, slot.room)) <==> now > slot.deadline)
            && after.rooms == s.rooms
  {
  }

  lemma DropGoesOn(s: Sys, o: OpId, step: Step)
    requires Enabled(s, o, step)
    ensures var after := At(Next(s, CallStep(o, step)).ops, o);
            && (step.DropClaim? ==>
                  after == if At(s.sessions, step.t) == Some(Active(step.r, step.p, step.user))
                           then Some(DropClaimed(step.t, step.r, step.p, step.user)) else None)
            && (step.DropFindRoom? ==>
                  after == if s.ops[o].room in s.live
                           then Some(DropInRoom(s.ops[o].token, s.ops[o].room, s.ops[o].player, s.ops[o].user))
                           else None)
            && (step.DropHold? ==>
                  var room := s.rooms[s.ops[o].room];
                  after == if room.active && s.ops[o].player in room.players
                           then Some(DropHeld(s.ops[o].token, s.ops[o].room, s.ops[o].user,
                                              room.players[s.ops[o].player].st))
                           else None)
  {
  }

  lemma ResumeGoesOn(s: Sys, o: OpId, step: Step)
    requires Enabled(s, o, step)
    ensures var after := At(Next(s, CallStep(o, step)).ops, o);
            && (step.ResumeCall? ==> after == Some(Polling(step.t, step.user, 0)))
            && (step.ResumeFindRoom? ==>
                  after == if s.ops[o].room in s.live
                           then Some(ResumeInRoom(s.ops[o].token, s.ops[o].user, s.ops[o].room, s.ops[o].claim))
                           else None)
  {
  }

  lemma ResumeOutcomeOp(room: RoomState, op: Op, p: PlayerId)
    requires op.ResumeInRoom? && room.SeatsWithinLimit()
    requires op.claim.HeldClaim? ==> room.reserved > 0
    ensures ResumeEffect(room, op, p).op
         == if room.active && (op.claim.HandoffClaim? ==> op.claim.player in room.players)
            then Some(Registering(op.user, op.room, p)) else None
  {
    if op.claim.HandoffClaim? {
      RemoveCounts(room, op.claim.player);
    }
  }

  /** A join seats its player exactly when the room is active, not full and not too far on; else it goes on. */
  lemma JoinGoesOn(s: Sys, o: OpId, step: Step)
    requires Enabled(s, o, step)
    ensures var after := At(Next(s, CallStep(o, step)).ops, o);
            && (step.JoinPick? ==> after == Some(Joining(step.user, step.r, 0)))
            && (step.JoinRepick? ==> after == Some(Joining(s.ops[o].user, step.r, s.ops[o].attempt)))
            && (step.JoinAdmit? ==>
                  var room, op := s.rooms[s.ops[o].room], s.ops[o];
                  after == if room.active && |room.players| + room.reserved < room.maxPlayers && !step.tooLate
                           then Some(Registering(op.user, op.room, step.p))
                           else if op.attempt + 1 < 64 then Some(Repicking(op.user, op.attempt + 1))
                           else None)
  {
  }

  /** Giving a token up, leaving and releasing. */
  lemma EndGoesOn(s: Sys, o: OpId, step: Step)
    requires Enabled(s, o, step)
    ensures var after := At(Next(s, CallStep(o, step)).ops, o);
            && (step.Forget? ==>
                  after == if step.t in s.sessions && s.sessions[step.t].Held?
                           then Some(Releasing(step.t, s.sessions[step.t].room)) else None)
            && (step.ReleaseFindRoom? ==>
                  after == if s.ops[o].room in s.live then Some(ReleaseInRoom(s.ops[o].token, s.ops[o].room)) else None)
            && (step.LeaveCall? ==> after == if step.r in s.live then Some(Leaving(step.r, step.p)) else None)
            && (step.RegisterToken? || step.DropPark? || step.ReleaseRun? || step.LeaveRun? ==> after == None)
  {
  }

  /** The sweep starts one release for each token it removed, and touches no call in flight. */
  lemma SweepGoesOn(s: Sys, now: nat, o: OpId)
    ensures At(Next(s, GraceSweep(now)).ops, o)
         == if o.Swept? && o.expired in s.sessions && Removes(s, GraceSweep(now), o.expired)
            then Some(Releasing(o.expired, s.sessions[o.expired].room)) else At(s.ops, o)
  {
  }

  // ---- whole calls among other calls ----

  /** At `n`, the call takes this section. */
  ghost predicate Takes(states: seq<Sys>, n: nat, o: OpId, step: Step) {
    && n + 1 < |states| && CanHappen(states[n], CallStep(o, step))
    && states[n + 1] == Next(states[n], CallStep(o, step))
  }

  ghost predicate OthersAct(states: seq<Sys>, n: nat, o: OpId)
    requires n + 1 < |states|
  {
    exists a :: && CanHappen(states[n], a) && states[n + 1] == Next(states[n], a)
                && !(a.CallStep? && a.o == o)
  }

  /** From `i` to `j`, anything but this call may happen. */
  ghost predicate Pauses(states: seq<Sys>, i: nat, j: nat, o: OpId) {
    i <= j < |states| && forall n | i <= n < j :: OthersAct(states, n, o)
  }

  lemma OthersKeepCall(s: Sys, a: Action, o: OpId)
    requires CanHappen(s, a) && !(a.CallStep? && a.o == o) && o.Call? && o in s.ops && !s.ops[o].Purging?
    ensures At(Next(s, a).ops, o) == Some(s.ops[o])
  {
  }

  lemma {:induction false} CallWaits(states: seq<Sys>, i: nat, j: nat, o: OpId)
    requires Pauses(states, i, j, o) && o.Call? && o in states[i].ops && !states[i].ops[o].Purging?
    ensures At(states[j].ops, o) == Some(states[i].ops[o])
    decreases j
  {
    if i < j {
      CallWaits(states, i, j - 1, o);
      assert OthersAct(states, j - 1, o);
      var a :| CanHappen(states[j - 1], a) && states[j] == Next(states[j - 1], a) && !(a.CallStep? && a.o == o);
      hide Next, CanHappen;
      OthersKeepCall(states[j - 1], a, o);
    }
  }

  /** A drop in a live, active room, from its claim to the moment at which it can park the token. */
  ghost predicate DropsSeated(states: seq<Sys>, claim: nat, find: nat, hold: nat, o: OpId, t: Token, r: RoomId,
                              p: PlayerId, user: UserId) {
    && o.Call? && Takes(states, claim, o, DropClaim(t, r, p, user))
    && At(states[claim].sessions, t) == Some(Active(r, p, user))
    && Pauses(states, claim + 1, find, o) && r in states[find].live && Takes(states, find, o, DropFindRoom)
    && Pauses(states, find + 1, hold, o) && Takes(states, hold, o, DropHold)
    && r in states[hold].rooms && states[hold].rooms[r].active && p in states[hold].rooms[r].players
  }

  /**
   A dropped player is held: whatever runs in between, the drop that finds its player seated in an
   active room takes the player out, reserves the seat, and parks the state the player had at that
   moment until the grace is over.
   */
  lemma DroppedPlayerIsHeld(states: seq<Sys>, graceMs: nat, claim: nat, find: nat, hold: nat, park: nat, o: OpId,
                            t: Token, r: RoomId, p: PlayerId, user: UserId, now: nat)
    requires Run(states, graceMs) && DropsSeated(states, claim, find, hold, o, t, r, p, user)
    requires Pauses(states, hold + 1, park, o)
    ensures var room := states[hold].rooms[r];
            && r in states[hold + 1].rooms
            && states[hold + 1].rooms[r] == room.(players := room.players - {p}, reserved := room.reserved + 1)
    ensures CanHappen(states[park], CallStep(o, DropPark(now)))
    ensures var parked := Next(states[park], CallStep(o, DropPark(now)));
            At(parked.sessions, t) == Some(Held(r, user, states[hold].rooms[r].players[p].st, now + graceMs))
  {
    DropGoesOn(states[claim], o, DropClaim(t, r, p, user));
    CallWaits(states, claim + 1, find, o);
    DropGoesOn(states[find], o, DropFindRoom);
    CallWaits(states, find + 1, hold, o);
    DropGoesOn(states[hold], o, DropHold);
    CallWaits(states, hold + 1, park, o);
    GraceIsFixed(states, graceMs, park);
  }

  lemma {:induction false} GraceIsFixed(states: seq<Sys>, graceMs: nat, i: nat)
    requires Run(states, graceMs) && i < |states|
    ensures states[i].graceMs == graceMs
  {
    if i > 0 {
      GraceIsFixed(states, graceMs, i - 1);
      assert StepsTo(states, i);
    }
  }

  /** A resume with a token that is in the map, from its attempt to the moment at which it can readmit. */
  ghost predicate Resumes(states: seq<Sys>, try: nat, find: nat, admit: nat, o: OpId, t: Token, r: RoomId,
                          user: UserId, now: nat) {
    && o.Call? && Takes(states, try, o, ResumeTry(now))
    && states[try].ops[o].wanted == t && states[try].ops[o].user == user && t in states[try].sessions
    && Pauses(states, try + 1, find, o) && r in states[find].live && Takes(states, find, o, ResumeFindRoom)
    && Pauses(states, find + 1, admit, o) && r in states[admit].rooms && states[admit].rooms[r].active
  }

  /**
   A held player comes back: the owner who presents the token by its deadline is seated under a new
   id in the state that was held, using the promised seat, as long as the match goes on.
   */
  lemma HeldPlayerComesBack(states: seq<Sys>, graceMs: nat, try: nat, find: nat, admit: nat, o: OpId, t: Token,
                            r: RoomId, user: UserId, st: PlayerState, deadline: nat, now: nat, p: PlayerId)
    requires Run(states, graceMs) && Resumes(states, try, find, admit, o, t, r, user, now)
    requires states[try].sessions[t] == Held(r, user, st, deadline) && now <= deadline
    requires p !in states[admit].issuedPlayers
    ensures CanHappen(states[admit], CallStep(o, ResumeAdmit(p)))
    ensures var room, after := states[admit].rooms[r], Next(states[admit], CallStep(o, ResumeAdmit(p)));
            && room.reserved > 0 && r in after.rooms
            && after.rooms[r] == room.(players := room.players[p := Seat(user, st)], reserved := room.reserved - 1)
            && At(after.ops, o) == Some(Registering(user, r, p))
  {
    ResumeReachesRoom(states, try, find, admit, o, t, r, user, st, deadline, now);
    hide Resumes, Safe, ResumeEffect;
    RunsAreSafe(states, graceMs, admit);
    var op := ResumeInRoom(t, user, r, HeldClaim(st, now, deadline));
    AdmitIsCommitted(states[admit], o, p, op);
    HeldIsReadmitted(states[admit], o, p, op);
    hide Run, Commit, Next, Enabled;
  }

  lemma ResumeReachesRoom(states: seq<Sys>, try: nat, find: nat, admit: nat, o: OpId, t: Token, r: RoomId,
                          user: UserId, st: PlayerState, deadline: nat, now: nat)
    requires Resumes(states, try, find, admit, o, t, r, user, now)
    requires states[try].sessions[t] == Held(r, user, st, deadline) && now <= deadline
    ensures At(states[admit].ops, o) == Some(ResumeInRoom(t, user, r, HeldClaim(st, now, deadline)))
  {
    TryGoesOn(states[try], o, now);
    CallWaits(states, try + 1, find, o);
    ResumeGoesOn(states[find], o, ResumeFindRoom);
    CallWaits(states, find + 1, admit, o);
  }

  lemma AdmitIsCommitted(s: Sys, o: OpId, p: PlayerId, op: Op)
    requires At(s.ops, o) == Some(op) && op.ResumeInRoom? && op.room in s.rooms && p !in s.issuedPlayers
    ensures CanHappen(s, CallStep(o, ResumeAdmit(p)))
    ensures Next(s, CallStep(o, ResumeAdmit(p))) == Commit(s, o, ResumeEffect(s.rooms[op.room], op, p))
  {
  }

  /** A resume that has reached an active room readmits, unless it is a handoff whose stale entity is gone. */
  lemma ReadmitGoesOn(s: Sys, o: OpId, p: PlayerId, op: Op)
    requires Safe(s) && At(s.ops, o) == Some(op) && op.ResumeInRoom? && op.room in s.rooms && p !in s.issuedPlayers
    ensures CanHappen(s, CallStep(o, ResumeAdmit(p)))
    ensures At(Next(s, CallStep(o, ResumeAdmit(p))).ops, o)
         == if s.rooms[op.room].active && (op.claim.HandoffClaim? ==> op.claim.player in s.rooms[op.room].players)
            then Some(Registering(op.user, op.room, p)) else None
  {
    ResumeFinds(s, o, p);
    hide Safe, ResumeEffect;
    AdmitIsCommitted(s, o, p, op);
    ResumeOutcomeOp(s.rooms[op.room], op, p);
    hide Next, Enabled;
  }

  lemma HeldIsReadmitted(s: Sys, o: OpId, p: PlayerId, op: Op)
    requires Safe(s) && At(s.ops, o) == Some(op) && op.ResumeInRoom? && op.claim.HeldClaim?
    requires op.room in s.rooms && s.rooms[op.room].active && p !in s.issuedPlayers
    ensures var room, after := s.rooms[op.room], Commit(s, o, ResumeEffect(s.rooms[op.room], op, p));
            && room.reserved > 0 && op.room in after.rooms
            && after.rooms[op.room]
               == room.(players := room.players[p := Seat(op.user, op.claim.resume)], reserved := room.reserved - 1)
            && At(after.ops, o) == Some(Registering(op.user, op.room, p))
  {
    ResumeFinds(s, o, p);
    hide Safe, ResumeEffect;
    ResumeOutcome(s.rooms[op.room], op, p);
    ResumeOutcomeOp(s.rooms[op.room], op, p);
  }

  lemma RemovedHeldIsSpent(s: Sys, a: Action, t: Token)
    requires OneCarrier(s) && CanHappen(s, a) && t in s.sessions && s.sessions[t].Held? && Removes(s, a, t)
    requires t !in Next(s, a).sessions
    ensures Spent(Next(s, a), t)
  {
    hide AdmitEffect, DropHoldEffect, ResumeEffect;
  }

  lemma HeldStaysOrIsSpentNext(s: Sys, a: Action, t: Token, slot: Slot)
    requires Safe(s) && CanHappen(s, a) && slot.Held? && (At(s.sessions, t) == Some(slot) || Spent(s, t))
    ensures At(Next(s, a).sessions, t) == Some(slot) || Spent(Next(s, a), t)
  {
    if t in s.sessions {
      TokenLeavesIff(s, a, t);
      if Removes(s, a, t) {
        hide Conserved, Structured, Seated, Seating, NamesIssued, OneNamer, Next;
        RemovedHeldIsSpent(s, a, t);
      }
    } else {
      SpentAfterAction(s, a, t);
    }
    hide Safe, Next, Removes;
  }

  /** A held token keeps its slot for as long as it is in the map at all. */
  lemma {:induction false} HeldStaysOrIsSpent(states: seq<Sys>, graceMs: nat, i: nat, j: nat, t: Token)
    requires Run(states, graceMs) && i <= j < |states| && t in states[i].sessions && states[i].sessions[t].Held?
    ensures At(states[j].sessions, t) == Some(states[i].sessions[t]) || Spent(states[j], t)
    decreases j
  {
    hide Safe, Next, CanHappen, Spent;
    if i < j {
      HeldStaysOrIsSpent(states, graceMs, i, j - 1, t);
      assert StepsTo(states, j);
      var a :| CanHappen(states[j - 1], a) && states[j] == Next(states[j - 1], a);
      RunsAreSafe(states, graceMs, j - 1);
      HeldStaysOrIsSpentNext(states[j - 1], a, t, states[i].sessions[t]);
    }
  }

  /**
   The round trip: a player whose drop is held, and who comes back within the grace while the token is
   still in the map and the match still on, sits in the same room in exactly the state they left it in.
   */
  lemma PlayersComeBackAsTheyLeft(states: seq<Sys>, graceMs: nat, claim: nat, found: nat, hold: nat, park: nat,
                                  try: nat, find: nat, admit: nat, o: OpId, o': OpId, t: Token, r: RoomId,
                                  p: PlayerId, p': PlayerId, user: UserId, parkedAt: nat, now: nat)
    requires Run(states, graceMs) && DropsSeated(states, claim, found, hold, o, t, r, p, user)
    requires Pauses(states, hold + 1, park, o) && Takes(states, park, o, DropPark(parkedAt))
    requires park < try && Resumes(states, try, find, admit, o', t, r, user, now) && now <= parkedAt + graceMs
    requires p' !in states[admit].issuedPlayers
    ensures CanHappen(states[admit], CallStep(o', ResumeAdmit(p')))
    ensures var after := Next(states[admit], CallStep(o', ResumeAdmit(p')));
            && r in after.rooms
            && At(after.rooms[r].players, p') == Some(Seat(user, states[hold].rooms[r].players[p].st))
  {
    var st := states[hold].rooms[r].players[p].st;
    DroppedPlayerIsHeld(states, graceMs, claim, found, hold, park, o, t, r, p, user, parkedAt);
    HeldStaysOrIsSpent(states, graceMs, park + 1, try, t);
    hide DropsSeated, Run, Spent;
    HeldPlayerComesBack(states, graceMs, try, find, admit, o', t, r, user, st, parkedAt + graceMs, now, p');
  }
}
