/** What every critical section of the resume protocol keeps. */
module ResumeInvariants {
  import opened Wrappers
  import opened RoomSeats
  import opened ResumeProtocol

  // ---- reservations ----

  ghost function SlotsOwing(sessions: map<Token, Slot>, r: RoomId): set<Token> {
    set t | t in sessions && SlotOwes(sessions[t]) == Some(r)
  }

  ghost function OpsOwing(ops: map<OpId, Op>, r: RoomId): set<OpId> {
    set o | o in ops && OpOwes(ops[o]) == Some(r)
  }

  /** Reservations somebody still answers for: held tokens plus unsettled calls. */
  ghost function Owed(s: Sys, r: RoomId): nat {
    |SlotsOwing(s.sessions, r)| + |OpsOwing(s.ops, r)|
  }

  /** An evicted room can only have too many reservations: its tokens were dropped with it. */
  ghost predicate ConservedIn(s: Sys, r: RoomId)
    requires r in s.rooms
  {
    s.rooms[r].reserved >= Owed(s, r) && (r in s.live ==> s.rooms[r].reserved == Owed(s, r))
  }

  ghost predicate Conserved(s: Sys) {
    forall r | r in s.rooms :: ConservedIn(s, r)
  }

  ghost predicate Seated(s: Sys) {
    forall r | r in s.rooms :: s.rooms[r].SeatsWithinLimit()
  }

  // ---- structure ----

  /** Operations that refer to a room known to exist. */
  predicate InRoom(op: Op) {
    op.Joining? || op.DropInRoom? || op.ResumeInRoom? || op.ReleaseInRoom? || op.Leaving?
      || op.DropHeld? || op.Registering? || op.Resuming? || op.Releasing?
  }

  ghost predicate Structured(s: Sys) {
    && s.live <= s.rooms.Keys
    && (forall o | o in s.ops && InRoom(s.ops[o]) :: s.ops[o].room in s.rooms)
    && (forall t | t in s.sessions :: s.sessions[t].room in s.rooms)
    && (forall o | o in s.ops && s.ops[o].Purging? :: s.ops[o].gone !! s.live)
    && (forall o | o in s.ops && s.ops[o].Purging? :: s.ops[o].gone <= s.rooms.Keys)
  }

  // ---- one carrier for each token ----

  ghost predicate OneCarrier(s: Sys) {
    && s.sessions.Keys <= s.issuedTokens
    && (forall o | o in s.ops && OpToken(s.ops[o]).Some? ::
          OpToken(s.ops[o]).value in s.issuedTokens && OpToken(s.ops[o]).value !in s.sessions)
    && (forall o, o' | o in s.ops && o' in s.ops && o != o' && OpToken(s.ops[o]).Some? ::
          OpToken(s.ops[o]) != OpToken(s.ops[o']))
    && (forall o: OpId | o in s.ops && o.Swept? :: OwesRelease(s.ops[o], o.expired))
  }

  /** A swept token is owed exactly a release. */
  predicate OwesRelease(op: Op, t: Token) {
    (op.Releasing? || op.ReleaseInRoom?) && op.token == t
  }

  // ---- one claimant for each live entity ----

  /** Player ids are minted once and sit in one room. */
  ghost predicate Seating(s: Sys) {
    && (forall r, p | r in s.rooms && p in s.rooms[r].players :: p in s.issuedPlayers)
    && (forall r, r', p | r in s.rooms && r' in s.rooms && r != r' && p in s.rooms[r].players ::
          p !in s.rooms[r'].players)
  }

  ghost predicate NamesIssued(s: Sys) {
    && (forall t | t in s.sessions && SlotNames(s.sessions[t]).Some? ::
          SlotNames(s.sessions[t]).value in s.issuedPlayers)
    && (forall o | o in s.ops && OpNames(s.ops[o]).Some? :: OpNames(s.ops[o]).value in s.issuedPlayers)
  }

  /** At most one `Active` token or pending call is entitled to act on an entity. */
  ghost predicate OneNamer(s: Sys) {
    && (forall t, t' | t in s.sessions && t' in s.sessions && t != t' && SlotNames(s.sessions[t]).Some? ::
          SlotNames(s.sessions[t]) != SlotNames(s.sessions[t']))
    && (forall t, o | t in s.sessions && o in s.ops && SlotNames(s.sessions[t]).Some? ::
          SlotNames(s.sessions[t]) != OpNames(s.ops[o]))
    && (forall o, o' | o in s.ops && o' in s.ops && o != o' && OpNames(s.ops[o]).Some? ::
          OpNames(s.ops[o]) != OpNames(s.ops[o']))
  }

  ghost predicate Safe(s: Sys) {
    && Structured(s) && Conserved(s) && Seated(s) && OneCarrier(s)
    && Seating(s) && NamesIssued(s) && OneNamer(s)
  }

  // ---- structure is kept ----

  predicate StructuredEffect(s: Sys, e: Effect) {
    && (e.op.Some? && InRoom(e.op.value) ==> e.op.value.room in s.rooms)
    && (e.op.Some? ==> !e.op.value.Purging?)
    && (e.slot.Some? && e.slot.value.1.Some? ==> e.slot.value.1.value.room in s.rooms)
    && (e.room.Some? ==> e.room.value.0 in s.rooms)
  }

  lemma CallIsStructured(s: Sys, o: OpId, step: Step)
    requires Enabled(s, o, step) && s.live <= s.rooms.Keys
    requires o in s.ops && InRoom(s.ops[o]) ==> s.ops[o].room in s.rooms
    requires forall t | t in s.sessions :: s.sessions[t].room in s.rooms
    ensures StructuredEffect(s, EffectOf(s, o, step))
  {
  }

  lemma StructureAfterCommit(s: Sys, o: OpId, e: Effect)
    requires Structured(s) && StructuredEffect(s, e)
    ensures Structured(Commit(s, o, e))
  {
  }

  // ---- conservation is kept ----

  ghost function OwesOp(op: Option<Op>, r: RoomId): int {
    if op.Some? && OpOwes(op.value) == Some(r) then 1 else 0
  }

  ghost function OwesSlot(slot: Option<Slot>, r: RoomId): int {
    if slot.Some? && SlotOwes(slot.value) == Some(r) then 1 else 0
  }

  function At<K, V>(m: map<K, V>, k: K): Option<V> {
    if k in m then Some(m[k]) else None
  }

  lemma CountAfterUpdate<K>(before: set<K>, after: set<K>, k: K)
    requires before - {k} == after - {k}
    ensures |after| == |before| - (if k in before then 1 else 0) + (if k in after then 1 else 0)
  {
    assert before == (before - {k}) + (if k in before then {k} else {});
    assert after == (after - {k}) + (if k in after then {k} else {});
  }

  lemma OpsOwingDelta(ops: map<OpId, Op>, o: OpId, op: Option<Op>, r: RoomId)
    ensures |OpsOwing(SetOp(ops, o, op), r)| == |OpsOwing(ops, r)| - OwesOp(At(ops, o), r) + OwesOp(op, r)
  {
    var after := SetOp(ops, o, op);
    assert forall k | k != o :: k in after <==> k in ops;
    assert forall k | k != o && k in ops :: after[k] == ops[k];
    CountAfterUpdate(OpsOwing(ops, r), OpsOwing(after, r), o);
  }

  lemma SlotsOwingDelta(sessions: map<Token, Slot>, t: Token, slot: Option<Slot>, r: RoomId)
    ensures |SlotsOwing(SetSlot(sessions, t, slot), r)|
         == |SlotsOwing(sessions, r)| - OwesSlot(At(sessions, t), r) + OwesSlot(slot, r)
  {
    var after := SetSlot(sessions, t, slot);
    assert forall k | k != t :: k in after <==> k in sessions;
    assert forall k | k != t && k in sessions :: after[k] == sessions[k];
    CountAfterUpdate(SlotsOwing(sessions, r), SlotsOwing(after, r), t);
  }

  /** How far one effect moves the number of answered-for reservations in `r`. */
  ghost function OwedDelta(s: Sys, o: OpId, e: Effect, r: RoomId): int {
    OwesOp(e.op, r) - OwesOp(At(s.ops, o), r)
      + (if e.slot.Some? then OwesSlot(e.slot.value.1, r) - OwesSlot(At(s.sessions, e.slot.value.0), r) else 0)
  }

  lemma OwedAfterCommit(s: Sys, o: OpId, e: Effect, r: RoomId)
    ensures Owed(Commit(s, o, e), r) == Owed(s, r) + OwedDelta(s, o, e, r)
  {
    OpsOwingDelta(s.ops, o, e.op, r);
    if e.slot.Some? {
      SlotsOwingDelta(s.sessions, e.slot.value.0, e.slot.value.1, r);
    }
  }

  lemma OwingOpCounts(s: Sys, o: OpId)
    requires o in s.ops && OpOwes(s.ops[o]).Some?
    ensures Owed(s, OpOwes(s.ops[o]).value) > 0
  {
    assert o in OpsOwing(s.ops, OpOwes(s.ops[o]).value);
  }

  ghost function ReservedAfter(s: Sys, e: Effect, r: RoomId): nat
    requires r in s.rooms
  {
    if e.room.Some? && e.room.value.0 == r then e.room.value.1.reserved else s.rooms[r].reserved
  }

  /** The books of one critical section balance: its room changes by what its token and call change. */
  ghost predicate Balanced(s: Sys, o: OpId, e: Effect, r: RoomId)
    requires r in s.rooms
  {
    && ReservedAfter(s, e, r) - s.rooms[r].reserved >= OwedDelta(s, o, e, r)
    && (r in s.live ==> ReservedAfter(s, e, r) - s.rooms[r].reserved == OwedDelta(s, o, e, r))
  }

  lemma BooksBalance(s: Sys, o: OpId, step: Step, r: RoomId)
    requires Enabled(s, o, step) && r in s.rooms
    requires o in s.ops && OpOwes(s.ops[o]) == Some(r) ==> s.rooms[r].reserved > 0
    requires o in s.ops && OpToken(s.ops[o]).Some? ==> OpToken(s.ops[o]).value !in s.sessions
    requires step.RegisterToken? ==> step.t !in s.sessions
    ensures Balanced(s, o, EffectOf(s, o, step), r)
  {
    hide AdmitEffect, DropHoldEffect, ResumeEffect, TryEffect;
    match step {
      case JoinAdmit(p, st, tooLate) => AdmitReserves(s.rooms[s.ops[o].room], s.ops[o], p, st, tooLate);
      case DropHold => HoldReserves(s.rooms[s.ops[o].room], s.ops[o]);
      case ResumeTry(now) => TryOwes(s.sessions, s.ops[o], now);
      case ResumeAdmit(p) => ResumeReserves(s.rooms[s.ops[o].room], s.ops[o], p);
      case _ =>
    }
  }

  lemma AdmitReserves(room: RoomState, op: Op, p: PlayerId, st: PlayerState, tooLate: bool)
    requires op.Joining?
    ensures var e := AdmitEffect(room, op, p, st, tooLate);
            && e.slot.None? && (e.op.Some? ==> OpOwes(e.op.value).None? && OpToken(e.op.value).None?)
            && (e.room.Some? ==> e.room.value.0 == op.room && e.room.value.1.reserved == room.reserved)
  {
  }

  lemma HoldReserves(room: RoomState, op: Op)
    requires op.DropInRoom?
    ensures var e := DropHoldEffect(room, op);
            && e.slot.None? && (e.room.Some? ==> e.room.value.0 == op.room)
            && (e.op.Some? ==> e.op.value.DropHeld? && e.op.value.token == op.token)
            && (e.op.Some? ==> OpOwes(e.op.value) == Some(op.room) && e.room.Some?)
            && (e.room.Some? ==> e.room.value.1.reserved == room.reserved + (if e.op.Some? then 1 else 0))
  {
  }

  /** A held claim gives its reservation up; a handoff takes one and gives it up again. */
  lemma ResumeReserves(room: RoomState, op: Op, p: PlayerId)
    requires op.ResumeInRoom?
    ensures var e := ResumeEffect(room, op, p);
            && e.slot.None? && (e.op.Some? ==> OpOwes(e.op.value).None? && OpToken(e.op.value).None?)
            && (e.room.Some? ==> e.room.value.0 == op.room)
            && (if op.claim.HeldClaim?
                then e.room.Some? && e.room.value.1.reserved == (if room.reserved == 0 then 0 else room.reserved - 1)
                else e.room.Some? ==> e.room.value.1.reserved == room.reserved)
  {
  }

  /** What a resume attempt takes out of the map, it owes itself. */
  lemma TryOwes(sessions: map<Token, Slot>, op: Op, now: nat)
    requires op.Polling?
    ensures var e := TryEffect(sessions, op, now);
            && (e.op.Some? ==> e.op.value.Polling? || e.op.value.Releasing? || e.op.value.Resuming?)
            && e.room.None? && e.player.None? && (e.slot.None? ==> e.op.Some? ==> OpOwes(e.op.value).None?)
            && (e.slot.Some? ==>
                  e.slot == Some((op.wanted, None)) && op.wanted in sessions && e.op.Some?
                  && OpOwes(e.op.value) == SlotOwes(sessions[op.wanted]))
  {
  }

  lemma ConservationAfterCommit(s: Sys, o: OpId, e: Effect, r: RoomId)
    requires r in s.rooms && ConservedIn(s, r) && Balanced(s, o, e, r)
    ensures ConservedIn(Commit(s, o, e), r)
  {
    OwedAfterCommit(s, o, e, r);
  }

  lemma CallBalances(s: Sys, o: OpId, step: Step, r: RoomId)
    requires Conserved(s) && OneCarrier(s) && Enabled(s, o, step) && r in s.rooms
    ensures Balanced(s, o, EffectOf(s, o, step), r)
  {
    if o in s.ops && OpOwes(s.ops[o]) == Some(r) {
      assert ConservedIn(s, r);
      OwingOpCounts(s, o);
    }
    BooksBalance(s, o, step, r);
  }

  lemma ConservationOfCall(s: Sys, o: OpId, step: Step, e: Effect)
    requires Conserved(s) && OneCarrier(s) && Enabled(s, o, step) && e == EffectOf(s, o, step)
    requires StructuredEffect(s, e)
    ensures Conserved(Commit(s, o, e))
  {
    forall r | r in Commit(s, o, e).rooms
      ensures ConservedIn(Commit(s, o, e), r)
    {
      assert ConservedIn(s, r);
      CallBalances(s, o, step, r);
      ConservationAfterCommit(s, o, e, r);
    }
  }

  // ---- seats ----

  lemma SeatsOfEffect(s: Sys, o: OpId, step: Step)
    requires Seated(s) && Enabled(s, o, step)
    requires forall r, p | r in s.rooms && p in s.rooms[r].players :: p in s.issuedPlayers
    ensures var e := EffectOf(s, o, step); e.room.Some? ==> e.room.value.1.SeatsWithinLimit()
  {
    match step {
      case JoinAdmit(p, st, tooLate) =>
        SeatLimitIsKept(s.rooms[s.ops[o].room], p, Seat(s.ops[o].user, st), tooLate);
      case DropHold =>
        RemoveCounts(s.rooms[s.ops[o].room], s.ops[o].player);
        HoldTradesSeatForReservation(s.rooms[s.ops[o].room], s.ops[o].player);
      case ResumeAdmit(p) =>
        SeatsOfReadmission(s.rooms[s.ops[o].room], s.ops[o], p);
      case LeaveRun =>
        RemoveCounts(s.rooms[s.ops[o].room], s.ops[o].player);
      case _ =>
    }
  }

  lemma SeatsOfReadmission(room: RoomState, op: Op, p: PlayerId)
    requires op.ResumeInRoom? && room.SeatsWithinLimit() && p !in room.players
    ensures var e := ResumeEffect(room, op, p); e.room.Some? ==> e.room.value.1.SeatsWithinLimit()
  {
  }

  lemma SeatsOfCall(s: Sys, o: OpId, step: Step)
    requires Seated(s) && Seating(s) && Enabled(s, o, step)
    ensures Seated(Commit(s, o, EffectOf(s, o, step)))
  {
    SeatsOfEffect(s, o, step);
  }

  // ---- one carrier for each token ----

  /** A token moves: from the map to the call that removed it, along the call, or back to the map. */
  predicate CarriesOn(s: Sys, o: OpId, e: Effect) {
    var mine := if o in s.ops then OpToken(s.ops[o]) else None;
    && (e.op.Some? && OpToken(e.op.value).Some? ==>
          || (OpToken(e.op.value) == mine && e.slot.None?)
          || (e.slot == Some((OpToken(e.op.value).value, None)) && OpToken(e.op.value).value in s.sessions))
    && (e.slot.Some? && e.slot.value.1.Some? ==>
          && (e.op.None? || OpToken(e.op.value).None?)
          && (Some(e.slot.value.0) == mine || e.token == Some(e.slot.value.0)))
    && (e.token.Some? ==> e.token.value !in s.issuedTokens)
    && (o.Swept? && e.op.Some? ==> OwesRelease(e.op.value, o.expired))
  }

  lemma CallCarriesOn(s: Sys, o: OpId, step: Step)
    requires Enabled(s, o, step)
    requires o.Swept? && o in s.ops ==> OwesRelease(s.ops[o], o.expired)
    ensures CarriesOn(s, o, EffectOf(s, o, step))
  {
  }

  lemma CarriersAfterCommit(s: Sys, o: OpId, e: Effect)
    requires OneCarrier(s) && CarriesOn(s, o, e)
    ensures OneCarrier(Commit(s, o, e))
  {
  }

  // ---- one claimant for each live entity ----

  /** A name moves the same way: along the call, out of the removed slot, into the new one, or is fresh. */
  predicate NamesOn(s: Sys, o: OpId, e: Effect) {
    var mine := if o in s.ops then OpNames(s.ops[o]) else None;
    && (e.op.Some? && OpNames(e.op.value).Some? ==>
          || (OpNames(e.op.value) == mine && e.slot.None?)
          || (e.slot.Some? && e.slot.value.1.None? && e.slot.value.0 in s.sessions
              && SlotNames(s.sessions[e.slot.value.0]) == OpNames(e.op.value))
          || (e.player == OpNames(e.op.value) && e.slot.None?))
    && (e.slot.Some? && e.slot.value.1.Some? && SlotNames(e.slot.value.1.value).Some? ==>
          SlotNames(e.slot.value.1.value) == mine && (e.op.None? || OpNames(e.op.value).None?))
    && (e.player.Some? ==> e.player.value !in s.issuedPlayers)
  }

  /** Only a freshly minted player ever enters a room. */
  predicate SeatsOn(s: Sys, e: Effect) {
    && (e.player.Some? ==> e.player.value !in s.issuedPlayers)
    && (e.room.Some? && e.room.value.0 in s.rooms ==>
          forall p | p in e.room.value.1.players ::
            p in s.rooms[e.room.value.0].players || e.player == Some(p))
  }

  predicate PlayersStay(before: RoomState, after: RoomState, minted: Option<PlayerId>) {
    forall p | p in after.players && minted != Some(p) ::
      p in before.players && after.players[p].user == before.players[p].user
  }

  predicate RoomSeatsStay(s: Sys, e: Effect) {
    e.room.Some? && e.room.value.0 in s.rooms ==> PlayersStay(s.rooms[e.room.value.0], e.room.value.1, e.player)
  }

  lemma AdmitKeepsPlayers(room: RoomState, op: Op, p: PlayerId, st: PlayerState, tooLate: bool)
    requires op.Joining?
    ensures var e := AdmitEffect(room, op, p, st, tooLate);
            && (e.player.Some? ==> e.player == Some(p))
            && (e.room.Some? ==> e.room.value.0 == op.room && PlayersStay(room, e.room.value.1, e.player))
  {
  }

  lemma HoldKeepsPlayers(room: RoomState, op: Op)
    requires op.DropInRoom?
    ensures var e := DropHoldEffect(room, op);
            e.player.None? && (e.room.Some? ==> e.room.value.0 == op.room && PlayersStay(room, e.room.value.1, None))
  {
  }

  lemma ResumeKeepsPlayers(room: RoomState, op: Op, p: PlayerId)
    requires op.ResumeInRoom?
    ensures var e := ResumeEffect(room, op, p);
            && (e.player.Some? ==> e.player == Some(p))
            && (e.room.Some? ==> e.room.value.0 == op.room && PlayersStay(room, e.room.value.1, e.player))
  {
  }

  /** No step moves a player to another user; only a freshly minted one can be new in a room. */
  lemma CallRoomSeatsStay(s: Sys, o: OpId, step: Step)
    requires Enabled(s, o, step)
    ensures RoomSeatsStay(s, EffectOf(s, o, step))
    ensures EffectOf(s, o, step).player.Some? ==> EffectOf(s, o, step).player.value !in s.issuedPlayers
  {
    hide AdmitEffect, DropHoldEffect, ResumeEffect, TryEffect;
    match step {
      case JoinAdmit(p, st, tooLate) => AdmitKeepsPlayers(s.rooms[s.ops[o].room], s.ops[o], p, st, tooLate);
      case DropHold => HoldKeepsPlayers(s.rooms[s.ops[o].room], s.ops[o]);
      case ResumeTry(now) => TryOwes(s.sessions, s.ops[o], now);
      case ResumeAdmit(p) => ResumeKeepsPlayers(s.rooms[s.ops[o].room], s.ops[o], p);
      case _ =>
    }
  }

  lemma CallNamesOn(s: Sys, o: OpId, step: Step)
    requires Enabled(s, o, step)
    ensures NamesOn(s, o, EffectOf(s, o, step))
  {
  }

  lemma CallSeatsOn(s: Sys, o: OpId, step: Step)
    requires Enabled(s, o, step)
    ensures SeatsOn(s, EffectOf(s, o, step))
  {
    hide EffectOf, Enabled;
    CallRoomSeatsStay(s, o, step);
  }

  lemma SeatingAfterCommit(s: Sys, o: OpId, e: Effect)
    requires Seating(s) && StructuredEffect(s, e) && SeatsOn(s, e)
    ensures Seating(Commit(s, o, e))
  {
  }

  lemma IssuedAfterCommit(s: Sys, o: OpId, e: Effect)
    requires NamesIssued(s) && NamesOn(s, o, e)
    ensures NamesIssued(Commit(s, o, e))
  {
  }

  lemma NamersAfterCommit(s: Sys, o: OpId, e: Effect)
    requires NamesIssued(s) && OneNamer(s) && NamesOn(s, o, e)
    ensures OneNamer(Commit(s, o, e))
  {
  }
}
