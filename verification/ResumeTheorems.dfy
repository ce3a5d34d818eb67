/**
 The promises of the reconnect protocol, stated over every run: every interleaving of
 lock-sized steps of joins, drops, resumes, handoffs, leaves, sweeps and evictions.
 */
module ResumeTheorems {
  import opened Wrappers
  import opened GameMaps
  import opened RoomSeats
  import opened ResumeProtocol
  import opened ResumeInvariants
  import opened ResumeRuns
  import opened ResumeHistory
  import opened ResumeIdentity

  // ---- reservations ----

  /** In a live room, reserved slots are exactly the held tokens plus the calls that still owe one. */
  lemma ReservationConservation(states: seq<Sys>, graceMs: nat, i: nat, r: RoomId)
    requires Run(states, graceMs) && i < |states| && r in states[i].live
    ensures r in states[i].rooms
    ensures states[i].rooms[r].reserved
         == |set t | t in states[i].sessions && states[i].sessions[t].Held? && states[i].sessions[t].room == r|
            + |set o | o in states[i].ops && OpOwes(states[i].ops[o]) == Some(r)|
  {
    var s := states[i];
    RunsAreSafe(states, graceMs, i);
    assert ConservedIn(s, r);
    assert SlotsOwing(s.sessions, r)
        == set t | t in s.sessions && s.sessions[t].Held? && s.sessions[t].room == r;
  }

  /** Whoever is about to give back or consume a reservation finds one, even in an evicted room. */
  lemma ReleaseNeverUnderflows(states: seq<Sys>, graceMs: nat, i: nat, o: OpId)
    requires Run(states, graceMs) && i < |states| && o in states[i].ops && OpOwes(states[i].ops[o]).Some?
    ensures OpOwes(states[i].ops[o]).value in states[i].rooms
    ensures states[i].rooms[OpOwes(states[i].ops[o]).value].reserved > 0
  {
    RunsAreSafe(states, graceMs, i);
    assert ConservedIn(states[i], OpOwes(states[i].ops[o]).value);
    OwingOpCounts(states[i], o);
  }

  /** Nothing leaks: once no call is pending and no token is held, the room promises no seat. */
  lemma SettledRoomPromisesNothing(states: seq<Sys>, graceMs: nat, i: nat, r: RoomId)
    requires Run(states, graceMs) && i < |states| && r in states[i].live && states[i].ops == map[]
    requires forall t | t in states[i].sessions && states[i].sessions[t].room == r :: states[i].sessions[t].Active?
    ensures r in states[i].rooms && states[i].rooms[r].reserved == 0
  {
    RunsAreSafe(states, graceMs, i);
    assert ConservedIn(states[i], r);
    assert SlotsOwing(states[i].sessions, r) == {} && OpsOwing(states[i].ops, r) == {};
  }

  lemma SeatsNeverOverfilled(states: seq<Sys>, graceMs: nat, i: nat, r: RoomId)
    requires Run(states, graceMs) && i < |states| && r in states[i].rooms
    ensures |states[i].rooms[r].players| + states[i].rooms[r].reserved <= states[i].rooms[r].maxPlayers
  {
    RunsAreSafe(states, graceMs, i);
    assert states[i].rooms[r].SeatsWithinLimit();
  }

  lemma ReadmitIntoReservedSeat(room: RoomState, op: Op, p: PlayerId)
    requires room.SeatsWithinLimit() && op.ResumeInRoom? && op.claim.HeldClaim?
    requires room.reserved > 0
    ensures var e := ResumeEffect(room, op, p);
            && e.room.Some? && e.room.value.0 == op.room && e.room.value.1.reserved == room.reserved - 1
            && if room.active
               then e.op == Some(Registering(op.user, op.room, p))
                    && e.room.value.1.players == room.players[p := Seat(op.user, op.claim.resume)]
               else e.op == None && e.room.value.1.players == room.players
  {
  }

  /** A held seat is a guarantee: the resume is turned away only if the match has ended. */
  lemma HeldSeatReadmits(states: seq<Sys>, graceMs: nat, i: nat, o: OpId, p: PlayerId)
    requires Run(states, graceMs) && i < |states| && Enabled(states[i], o, ResumeAdmit(p))
    requires states[i].ops[o].claim.HeldClaim?
    ensures var op := states[i].ops[o];
            var room := states[i].rooms[op.room];
            var after := Next(states[i], CallStep(o, ResumeAdmit(p)));
            && after.rooms[op.room].reserved == room.reserved - 1
            && if room.active
               then o in after.ops && after.ops[o] == Registering(op.user, op.room, p)
                    && after.rooms[op.room].players == room.players[p := Seat(op.user, op.claim.resume)]
               else o !in after.ops && after.rooms[op.room].players == room.players
  {
    var op := states[i].ops[o];
    ReleaseNeverUnderflows(states, graceMs, i, o);
    SeatsNeverOverfilled(states, graceMs, i, op.room);
    ReadmitIntoReservedSeat(states[i].rooms[op.room], op, p);
  }

  lemma HandoffReadmits(room: RoomState, op: Op, p: PlayerId)
    requires room.SeatsWithinLimit() && room.active && op.ResumeInRoom? && op.claim.HandoffClaim?
    requires op.claim.player in room.players
    ensures var e := ResumeEffect(room, op, p);
            && e.op == Some(Registering(op.user, op.room, p))
            && e.room == Some((op.room, room.(players :=
                 (room.players - {op.claim.player})[p := Seat(op.user, room.players[op.claim.player].st)])))
  {
  }

  /** A half-open handoff moves the player onto the new socket: one entity before, one after, no reservation left. */
  lemma HandoffIsNetZero(states: seq<Sys>, graceMs: nat, i: nat, o: OpId, p: PlayerId)
    requires Run(states, graceMs) && i < |states| && Enabled(states[i], o, ResumeAdmit(p))
    requires states[i].ops[o].claim.HandoffClaim?
    requires states[i].rooms[states[i].ops[o].room].active
    requires states[i].ops[o].claim.player in states[i].rooms[states[i].ops[o].room].players
    ensures var op := states[i].ops[o];
            var room := states[i].rooms[op.room];
            var after := Next(states[i], CallStep(o, ResumeAdmit(p)));
            && o in after.ops && after.ops[o] == Registering(op.user, op.room, p)
            && after.rooms[op.room].reserved == room.reserved
            && |after.rooms[op.room].players| == |room.players|
            && after.rooms[op.room].players
               == (room.players - {op.claim.player})[p := Seat(op.user, room.players[op.claim.player].st)]
  {
    var op := states[i].ops[o];
    var room := states[i].rooms[op.room];
    SeatsNeverOverfilled(states, graceMs, i, op.room);
    HandoffReadmits(room, op, p);
    FreshPlayerIsNotSeated(states, graceMs, i, op.room, p);
    RemoveCounts(room, op.claim.player);
    AdmitCounts(room.Remove(op.claim.player), p, Seat(op.user, room.players[op.claim.player].st));
  }

  lemma FreshPlayerIsNotSeated(states: seq<Sys>, graceMs: nat, i: nat, r: RoomId, p: PlayerId)
    requires Run(states, graceMs) && i < |states| && r in states[i].rooms && p !in states[i].issuedPlayers
    ensures p !in states[i].rooms[r].players
  {
    RunsAreSafe(states, graceMs, i);
  }

  // ---- ownership ----

  /** No two tokens, no two calls, and no token and call, are entitled to the same entity. */
  lemma EntityHasOneOwner(states: seq<Sys>, graceMs: nat, i: nat, p: PlayerId)
    requires Run(states, graceMs) && i < |states|
    ensures |set t | t in states[i].sessions && SlotNames(states[i].sessions[t]) == Some(p)|
            + |set o | o in states[i].ops && OpNames(states[i].ops[o]) == Some(p)| <= 1
  {
    hide Run, Structured, Conserved, Seated, OneCarrier, Seating, NamesIssued;
    var s := states[i];
    RunsAreSafe(states, graceMs, i);
    var tokens := set t | t in s.sessions && SlotNames(s.sessions[t]) == Some(p);
    var calls := set o | o in s.ops && OpNames(s.ops[o]) == Some(p);
    if t :| t in tokens {
      assert calls == {};
      assert tokens == {t};
    } else if o :| o in calls {
      assert calls == {o};
    }
  }

  predicate IsDrop(op: Op) {
    op.DropClaimed? || op.DropInRoom? || op.DropHeld?
  }

  /** A token that is out of the map and in no disconnect's hands has been used up. */
  ghost predicate Spent(s: Sys, t: Token) {
    && t in s.issuedTokens && t !in s.sessions
    && (forall o | o in s.ops && OpToken(s.ops[o]) == Some(t) :: !IsDrop(s.ops[o]))
  }

  lemma CallCannotRevive(s: Sys, o: OpId, step: Step, t: Token)
    requires Enabled(s, o, step) && t in s.issuedTokens && t !in s.sessions
    requires o in s.ops && OpToken(s.ops[o]) == Some(t) ==> !IsDrop(s.ops[o])
    ensures var e := EffectOf(s, o, step);
            && (e.op.Some? && OpToken(e.op.value) == Some(t) ==> !IsDrop(e.op.value))
            && (e.slot.Some? && e.slot.value.0 == t ==> e.slot.value.1.None?)
  {
    hide AdmitEffect, DropHoldEffect, ResumeEffect, TryEffect;
    match step {
      case JoinAdmit(p, st, tooLate) => AdmitReserves(s.rooms[s.ops[o].room], s.ops[o], p, st, tooLate);
      case DropHold => HoldReserves(s.rooms[s.ops[o].room], s.ops[o]);
      case ResumeTry(now) => TryOwes(s.sessions, s.ops[o], now);
      case ResumeAdmit(p) => ResumeReserves(s.rooms[s.ops[o].room], s.ops[o], p);
      case _ =>
    }
  }

  lemma SpentAfterCall(s: Sys, o: OpId, step: Step, t: Token)
    requires Enabled(s, o, step) && Spent(s, t)
    ensures Spent(Next(s, CallStep(o, step)), t)
  {
    CallCannotRevive(s, o, step, t);
  }

  lemma SpentAfterOther(s: Sys, a: Action, t: Token)
    requires CanHappen(s, a) && !a.CallStep? && Spent(s, t)
    ensures Spent(Next(s, a), t)
  {
  }

  lemma SpentAfterAction(s: Sys, a: Action, t: Token)
    requires CanHappen(s, a) && Spent(s, t)
    ensures Spent(Next(s, a), t)
  {
    if a.CallStep? {
      SpentAfterCall(s, a.o, a.step, t);
    } else {
      SpentAfterOther(s, a, t);
    }
  }

  lemma SpentAfterStep(s: Sys, after: Sys, t: Token)
    requires Follows(s, after) && Spent(s, t)
    ensures Spent(after, t)
  {
    var a :| CanHappen(s, a) && after == Next(s, a);
    SpentAfterAction(s, a, t);
  }

  lemma {:induction false} SpentForever(states: seq<Sys>, graceMs: nat, i: nat, j: nat, t: Token)
    requires Run(states, graceMs) && i <= j < |states| && Spent(states[i], t)
    ensures Spent(states[j], t)
  {
    if i < j {
      SpentForever(states, graceMs, i, j - 1, t);
      assert StepsTo(states, j);
      SpentAfterStep(states[j - 1], states[j], t);
    }
  }

  lemma ClaimSpends(s: Sys, o: OpId, now: nat)
    requires OneCarrier(s) && Enabled(s, o, ResumeTry(now)) && s.ops[o].wanted in s.sessions
    ensures Spent(Next(s, CallStep(o, ResumeTry(now))), s.ops[o].wanted)
       <==> s.sessions[s.ops[o].wanted].user == s.ops[o].user
  {
  }

  /**
   A resume attempt uses up the token it finds exactly when the token is that user's; anyone else
   leaves it intact.
   */
  lemma ResumeSpendsToken(states: seq<Sys>, graceMs: nat, i: nat, o: OpId, now: nat)
    requires Run(states, graceMs) && i < |states| && Enabled(states[i], o, ResumeTry(now))
    requires states[i].ops[o].wanted in states[i].sessions
    ensures var t := states[i].ops[o].wanted;
            var after := Next(states[i], CallStep(o, ResumeTry(now)));
            if states[i].sessions[t].user == states[i].ops[o].user
            then Spent(after, t)
            else after.sessions == states[i].sessions
  {
    hide Run, Conserved, Structured, Seated, Seating, NamesIssued, OneNamer;
    RunsAreSafe(states, graceMs, i);
    ClaimSpends(states[i], o, now);
  }

  /**
   The dead socket's cleanup after a handoff: however late it runs, and whatever room,
   player and user it names, a disconnect with a spent token changes nothing.
   */
  lemma LateDropChangesNothing(states: seq<Sys>, graceMs: nat, i: nat, j: nat, t: Token,
                               o: OpId, r: RoomId, p: PlayerId, user: UserId)
    requires Run(states, graceMs) && i <= j < |states| && Spent(states[i], t)
    requires Enabled(states[j], o, DropClaim(t, r, p, user))
    ensures Next(states[j], CallStep(o, DropClaim(t, r, p, user))) == states[j]
  {
    SpentForever(states, graceMs, i, j, t);
    assert states[j].ops - {o} == states[j].ops;
    assert states[j].log + [] == states[j].log;
  }

  // ---- identity ----

  /**
   A player who comes back comes back as they left: the same token was detached earlier,
   in the same room, for the same user, in the same state; and a held one was claimed in time.
   */
  lemma ComebackMatchesDeparture(states: seq<Sys>, graceMs: nat, i: nat, j: nat)
    requires Run(states, graceMs) && i < |states|
    requires j < |states[i].log| && states[i].log[j].Readmitted?
    ensures var log := states[i].log;
            var e := log[j];
            && (exists k | 0 <= k < j :: log[k].Detached? && log[k].token == e.token && log[k].room == e.room
                  && log[k].user == e.user && log[k].st == e.st)
            && (e.claim.HeldClaim? ==>
                  exists k | 0 <= k < j :: log[k].Parked? && log[k].token == e.token && log[k].user == e.user
                    && e.claim.claimedAt <= log[k].deadline)
  {
    var log := states[i].log;
    var e := log[j];
    RunsAreHistorical(states, graceMs, i);
    assert Explained(log, j);
    var p :| Detached(e.token, e.room, p, e.user, e.st) in log[..j];
    var k :| 0 <= k < j && log[k] == Detached(e.token, e.room, p, e.user, e.st);
    if e.claim.HeldClaim? {
      var k' :| 0 <= k' < j && log[k'] == Parked(e.token, e.user, e.claim.deadline);
    }
  }

  /** No entity is detached twice, and no token detaches or readmits twice. */
  lemma OneDetachOneComeback(states: seq<Sys>, graceMs: nat, i: nat, j: nat, k: nat)
    requires Run(states, graceMs) && i < |states| && j < k < |states[i].log|
    ensures var log := states[i].log;
            && (log[j].Detached? && log[k].Detached? ==>
                  log[j].token != log[k].token && log[j].player != log[k].player)
            && (log[j].Readmitted? && log[k].Readmitted? ==> log[j].token != log[k].token)
  {
    RunsAreHistorical(states, graceMs, i);
  }

  /** The history is not invented: each event is what the step really did to the room. */
  lemma EventsAreReal(states: seq<Sys>, graceMs: nat, i: nat, o: OpId, step: Step, k: nat)
    requires Run(states, graceMs) && i < |states| && Enabled(states[i], o, step)
    requires k < |EffectOf(states[i], o, step).events|
    ensures var s := states[i];
            var after := Next(s, CallStep(o, step));
            var e := EffectOf(s, o, step).events[k];
            && (e.Detached? ==>
                  && e.room in s.rooms && e.player in s.rooms[e.room].players
                  && s.rooms[e.room].players[e.player] == Seat(e.user, e.st)
                  && e.room in after.rooms && e.player !in after.rooms[e.room].players)
            && (e.Readmitted? ==>
                  && e.room in after.rooms && e.player in after.rooms[e.room].players
                  && after.rooms[e.room].players[e.player] == Seat(e.user, e.st))
  {
    var s := states[i];
    RunsAreSafe(states, graceMs, i);
    RunsAreHonest(states, graceMs, i);
    hide Run, Safe, Honest, EffectOf, Next;
    if EffectOf(s, o, step).events[k].Detached? {
      DetachIsReal(s, o, step, k);
    } else if EffectOf(s, o, step).events[k].Readmitted? {
      ReadmitIsReal(s, o, step, k);
    }
  }

  lemma DetachIsReal(s: Sys, o: OpId, step: Step, k: nat)
    requires Safe(s) && Honest(s) && Enabled(s, o, step)
    requires k < |EffectOf(s, o, step).events| && EffectOf(s, o, step).events[k].Detached?
    ensures var after := Next(s, CallStep(o, step));
            var e := EffectOf(s, o, step).events[k];
            && e.room in s.rooms && e.player in s.rooms[e.room].players
            && s.rooms[e.room].players[e.player] == Seat(e.user, e.st)
            && e.room in after.rooms && e.player !in after.rooms[e.room].players
  {
    hide EffectOf, Conserved, Structured, Seated, OneCarrier, NamesIssued, OneNamer;
    var eff := EffectOf(s, o, step);
    DetachedStateIsSeated(s, o, step, k);
    CallEvents(s, o, step);
    CallSeatsOn(s, o, step);
    assert OpHonest(s, s.ops[o]);
    assert DetachFits(s, o, eff, eff.events[k]);
  }

  lemma ReadmitIsReal(s: Sys, o: OpId, step: Step, k: nat)
    requires Enabled(s, o, step) && k < |EffectOf(s, o, step).events| && EffectOf(s, o, step).events[k].Readmitted?
    ensures var after := Next(s, CallStep(o, step));
            var e := EffectOf(s, o, step).events[k];
            && e.room in after.rooms && e.player in after.rooms[e.room].players
            && after.rooms[e.room].players[e.player] == Seat(e.user, e.st)
  {
    hide EffectOf;
    ReadmittedStateIsSeated(s, o, step, k);
  }

  lemma DetachedStateIsSeated(s: Sys, o: OpId, step: Step, k: nat)
    requires Enabled(s, o, step) && k < |EffectOf(s, o, step).events| && EffectOf(s, o, step).events[k].Detached?
    ensures var e := EffectOf(s, o, step).events[k];
            && o in s.ops && OpNames(s.ops[o]) == Some(e.player) && k == 0
            && e.room in s.rooms && e.player in s.rooms[e.room].players
            && s.rooms[e.room].players[e.player].st == e.st
  {
    hide AdmitEffect, DropHoldEffect, TryEffect, ResumeEffect;
    if step.DropHold? {
      HoldTakesSeated(s.rooms[s.ops[o].room], s.ops[o]);
    } else if step.ResumeAdmit? {
      HandoffTakesSeated(s.rooms[s.ops[o].room], s.ops[o], step.p);
    } else {
      OthersDetachNothing(s, o, step, k);
      assert false;
    }
  }

  lemma OthersDetachNothing(s: Sys, o: OpId, step: Step, k: nat)
    requires Enabled(s, o, step) && k < |EffectOf(s, o, step).events| && !step.DropHold? && !step.ResumeAdmit?
    ensures !EffectOf(s, o, step).events[k].Detached?
  {
  }

  lemma HoldTakesSeated(room: RoomState, op: Op)
    requires op.DropInRoom?
    ensures var events := DropHoldEffect(room, op).events;
            events == [] || (op.player in room.players
              && events == [Detached(op.token, op.room, op.player, op.user, room.players[op.player].st)])
  {
  }

  lemma HandoffTakesSeated(room: RoomState, op: Op, p: PlayerId)
    requires op.ResumeInRoom?
    ensures var events := ResumeEffect(room, op, p).events;
            && |events| <= 2
            && (forall k | 0 <= k < |events| && events[k].Detached? ::
                  && k == 0 && op.claim.HandoffClaim? && op.claim.player in room.players
                  && events[k]
                     == Detached(op.token, op.room, op.claim.player, op.user, room.players[op.claim.player].st))
  {
  }

  lemma ReadmittedStateIsSeated(s: Sys, o: OpId, step: Step, k: nat)
    requires Enabled(s, o, step) && k < |EffectOf(s, o, step).events| && EffectOf(s, o, step).events[k].Readmitted?
    ensures var eff := EffectOf(s, o, step);
            var e := eff.events[k];
            && eff.room.Some? && eff.room.value.0 == e.room && e.player in eff.room.value.1.players
            && eff.room.value.1.players[e.player] == Seat(e.user, e.st)
  {
  }

  // ---- tokens of rooms that are gone ----

  /** Somebody will drop the token if its room goes: the room is live, or a purge that covers it is pending. */
  ghost predicate Tracked(s: Sys, t: Token)
    requires t in s.sessions
  {
    || s.sessions[t].room in s.live
    || exists o :: o in s.ops && s.ops[o].Purging? && s.sessions[t].room in s.ops[o].gone
  }

  /** The token has the same slot in every state from `i` to `j`. */
  ghost predicate StaysFrom(states: seq<Sys>, i: nat, j: nat, t: Token)
    requires i <= j < |states|
  {
    forall k | i <= k <= j :: t in states[k].sessions && At(states[k].sessions, t) == At(states[i].sessions, t)
  }

  /** Tracking never changes while a token stays: it is decided when the token goes into the map. */
  lemma {:induction false} TrackingIsDecidedAtInsertion(states: seq<Sys>, graceMs: nat, i: nat, j: nat, t: Token)
    requires Run(states, graceMs) && i <= j < |states| && StaysFrom(states, i, j, t)
    ensures t in states[i].sessions && t in states[j].sessions
    ensures Tracked(states[i], t) <==> Tracked(states[j], t)
    decreases j
  {
    hide Run, Tracked;
    assert At(states[j].sessions, t) == At(states[i].sessions, t);
    if i < j {
      assert At(states[j - 1].sessions, t) == At(states[i].sessions, t);
      TrackingIsDecidedAtInsertion(states, graceMs, i, j - 1, t);
      TrackingStays(states, graceMs, j - 1, t);
    }
  }

  /**
   Once nothing is pending, a token that stayed has a live room if and only if it was
   tracked when it was inserted: its room was live then, or a purge of it still to come.
   */
  lemma SettledTokenHasRoomIff(states: seq<Sys>, graceMs: nat, i: nat, j: nat, t: Token)
    requires Run(states, graceMs) && i <= j < |states| && StaysFrom(states, i, j, t) && states[j].ops == map[]
    ensures t in states[i].sessions && t in states[j].sessions
    ensures states[j].sessions[t].room in states[j].live <==> Tracked(states[i], t)
  {
    TrackingIsDecidedAtInsertion(states, graceMs, i, j, t);
  }

  lemma TrackingStays(states: seq<Sys>, graceMs: nat, i: nat, t: Token)
    requires Run(states, graceMs) && i + 1 < |states|
    requires t in states[i].sessions && t in states[i + 1].sessions
    requires states[i + 1].sessions[t] == states[i].sessions[t]
    ensures Tracked(states[i], t) <==> Tracked(states[i + 1], t)
  {
    var s := states[i];
    RunsAreSafe(states, graceMs, i);
    assert StepsTo(states, i + 1);
    var a :| CanHappen(s, a) && states[i + 1] == Next(s, a);
    if a.CallStep? {
      CallKeepsTracking(s, a.o, a.step, t);
    } else {
      OtherKeepsTracking(s, a, t);
    }
  }

  lemma CallKeepsTracking(s: Sys, o: OpId, step: Step, t: Token)
    requires Structured(s) && Enabled(s, o, step) && t in s.sessions
    requires var after := Next(s, CallStep(o, step)); t in after.sessions && after.sessions[t] == s.sessions[t]
    ensures Tracked(s, t) <==> Tracked(Next(s, CallStep(o, step)), t)
  {
    var after := Next(s, CallStep(o, step));
    CallIsStructured(s, o, step);
    forall k | (k in s.ops && s.ops[k].Purging?) || (k in after.ops && after.ops[k].Purging?)
      ensures k in s.ops && k in after.ops && after.ops[k] == s.ops[k]
    {
    }
  }

  lemma OtherKeepsTracking(s: Sys, a: Action, t: Token)
    requires OneCarrier(s) && CanHappen(s, a) && !a.CallStep? && t in s.sessions
    requires a.CreateRoom? ==> s.sessions[t].room in s.rooms
    requires t in Next(s, a).sessions && Next(s, a).sessions[t] == s.sessions[t]
    ensures Tracked(s, t) <==> Tracked(Next(s, a), t)
  {
    var after := Next(s, a);
    var r := s.sessions[t].room;
    match a {
      case Evict(o, gone) =>
        if r in s.live && r in gone {
          assert after.ops[o].Purging? && r in after.ops[o].gone;
        }
        assert forall k | k in s.ops :: k in after.ops && after.ops[k] == s.ops[k];
      case Purge(o) =>
        assert r !in s.ops[o].gone;
        assert forall k | k in s.ops && s.ops[k].Purging? && r in s.ops[k].gone ::
            k in after.ops && after.ops[k] == s.ops[k];
      case GraceSweep(now) =>
        SweptOpsAreNew(s, ExpiredAt(s.sessions, now));
        assert forall k | k in after.ops && after.ops[k].Purging? :: k in s.ops && after.ops[k] == s.ops[k];
        assert forall k | k in s.ops :: k in after.ops && after.ops[k] == s.ops[k];
      case CreateRoom(_, _) =>
      case RoomTick(_, _) =>
      case RoomEnd(_) =>
    }
  }

  /** The states of the run below: a join whose room is evicted and purged before its token is registered. */
  function LateJoin(k: nat): Sys
    requires k <= 6
  {
    var before := RoomState(true, map[], 0, 10);
    var after := before.(players := map[3 := Seat(7, PlayerState(Position(0.0, 0.0), Right, 10))]);
    if k == 0 then Init(25000)
    else if k == 1 then Init(25000).(rooms := map[1 := before], live := {1})
    else if k == 2 then LateJoin(1).(ops := map[Call(1) := Joining(7, 1, 0)])
    else if k == 3 then LateJoin(1).(rooms := map[1 := after], ops := map[Call(1) := Registering(7, 1, 3)],
                                     issuedPlayers := {3})
    else if k == 4 then LateJoin(3).(live := {}, ops := LateJoin(3).ops[Call(2) := Purging({1})])
    else if k == 5 then LateJoin(3).(live := {})
    else LateJoin(3).(live := {}, ops := map[], sessions := map[9 := Active(1, 3, 7)], issuedTokens := {9})
  }

  lemma LateJoinFirstHalf()
    ensures Follows(LateJoin(0), LateJoin(1)) && Follows(LateJoin(1), LateJoin(2))
  {
    assert CanHappen(LateJoin(0), CreateRoom(1, 10)) && LateJoin(1) == Next(LateJoin(0), CreateRoom(1, 10));
    var pick := CallStep(Call(1), JoinPick(7, 1));
    assert LateJoin(1).log + [] == LateJoin(1).log;
    assert CanHappen(LateJoin(1), pick) && LateJoin(2) == Next(LateJoin(1), pick);
  }

  lemma LateJoinAdmits()
    ensures Follows(LateJoin(2), LateJoin(3))
  {
    var admit := CallStep(Call(1), JoinAdmit(3, PlayerState(Position(0.0, 0.0), Right, 10), false));
    var room := LateJoin(2).rooms[1];
    assert room == RoomState(true, map[], 0, 10);
    assert room.JoinVerdict(false).None?;
    assert LateJoin(2).log + [] == LateJoin(2).log;
    assert CanHappen(LateJoin(2), admit);
    assert Next(LateJoin(2), admit) == LateJoin(3);
  }

  lemma LateJoinIsEvicted()
    ensures Follows(LateJoin(3), LateJoin(4))
  {
    assert CanHappen(LateJoin(3), Evict(Call(2), {1})) && LateJoin(4) == Next(LateJoin(3), Evict(Call(2), {1}));
  }

  lemma LateJoinIsPurged()
    ensures Follows(LateJoin(4), LateJoin(5))
  {
    assert LateJoin(4).ops - {Call(2)} == LateJoin(3).ops;
    assert PurgeRooms(LateJoin(4).sessions, {1}) == map[];
    assert CanHappen(LateJoin(4), Purge(Call(2))) && LateJoin(5) == Next(LateJoin(4), Purge(Call(2)));
  }

  lemma LateJoinRegisters()
    ensures Follows(LateJoin(5), LateJoin(6))
  {
    var register := CallStep(Call(1), RegisterToken(9));
    assert LateJoin(5).ops - {Call(1)} == map[];
    assert LateJoin(5).log + [] == LateJoin(5).log;
    assert CanHappen(LateJoin(5), register) && LateJoin(6) == Next(LateJoin(5), register);
  }

  lemma LateJoinFollows(k: nat)
    requires 0 < k <= 6
    ensures Follows(LateJoin(k - 1), LateJoin(k))
  {
    if k <= 2 {
      LateJoinFirstHalf();
    } else if k == 3 {
      LateJoinAdmits();
    } else {
      LateJoinIsEvicted();
      LateJoinIsPurged();
      LateJoinRegisters();
    }
  }

  lemma LateJoinIsRun(states: seq<Sys>)
    requires |states| == 7 && forall k | 0 <= k < 7 :: states[k] == LateJoin(k)
    ensures Run(states, 25000)
  {
    forall i | 0 < i < |states|
      ensures StepsTo(states, i)
    {
      LateJoinFollows(i);
    }
  }

  /**
   A purge can miss a token: the room is evicted and purged after a player was admitted
   and before the token is registered. The token then stays although its room is gone
   and nothing is pending, until a drop, a leave or a resume presents it.
   */
  lemma PurgeCanMissLateRegistration()
    ensures exists states: seq<Sys>, t: Token ::
              && Run(states, 25000) && |states| == 7
              && states[6].ops == map[] && t in states[6].sessions && states[6].sessions[t].Active?
              && !Tracked(states[6], t)
  {
    var states := seq(7, k requires 0 <= k < 7 => LateJoin(k));
    LateJoinIsRun(states);
    var last := states[6];
    assert last.ops == map[] && last.sessions == map[9 := Active(1, 3, 7)] && last.live == {};
    assert 9 in last.sessions && !Tracked(last, 9);
  }
}
