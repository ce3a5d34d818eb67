/** What the history of a run says: who was detached, who came back, and as what. */
module ResumeHistory {
  import opened Wrappers
  import opened RoomSeats
  import opened ResumeProtocol
  import opened ResumeInvariants
  import opened ResumeRuns

  ghost predicate WasDetached(log: seq<Event>, t: Token, r: RoomId, user: UserId, st: PlayerState) {
    exists p :: Detached(t, r, p, user, st) in log
  }

  function IsHeldClaim(op: Op): bool {
    (op.Resuming? || op.ResumeInRoom?) && op.claim.HeldClaim?
  }

  /** The operation acts after its token's entity has left the room. */
  function AfterDetach(op: Op): bool {
    op.DropHeld? || op.Releasing? || op.ReleaseInRoom? || IsHeldClaim(op)
  }

  ghost predicate OpRemembers(log: seq<Event>, op: Op) {
    && (op.DropHeld? ==> WasDetached(log, op.token, op.room, op.user, op.resume))
    && (IsHeldClaim(op) ==>
          && WasDetached(log, op.token, op.room, op.user, op.claim.resume)
          && Parked(op.token, op.user, op.claim.deadline) in log
          && op.claim.claimedAt <= op.claim.deadline)
  }

  ghost predicate SlotRemembers(log: seq<Event>, t: Token, slot: Slot) {
    slot.Held? ==>
      WasDetached(log, t, slot.room, slot.user, slot.resume) && Parked(t, slot.user, slot.deadline) in log
  }

  /** Whatever state a held token or a resume call carries is a state recorded at a detach. */
  ghost predicate Remembers(s: Sys) {
    && (forall o | o in s.ops :: OpRemembers(s.log, s.ops[o]))
    && (forall t | t in s.sessions :: SlotRemembers(s.log, t, s.sessions[t]))
  }

  /** A readmission at index `j` is explained by earlier events. */
  ghost predicate Explained(log: seq<Event>, j: nat)
    requires j < |log| && log[j].Readmitted?
  {
    var e := log[j];
    && WasDetached(log[..j], e.token, e.room, e.user, e.st)
    && (e.claim.HeldClaim? ==>
          && Parked(e.token, e.user, e.claim.deadline) in log[..j]
          && e.claim.claimedAt <= e.claim.deadline)
  }

  ghost predicate AllExplained(log: seq<Event>) {
    forall j | 0 <= j < |log| && log[j].Readmitted? :: Explained(log, j)
  }

  ghost predicate DetachedOnce(log: seq<Event>) {
    forall i, j | 0 <= i < j < |log| && log[i].Detached? && log[j].Detached? ::
      log[i].token != log[j].token && log[i].player != log[j].player
  }

  ghost predicate ReadmittedOnce(log: seq<Event>) {
    forall i, j | 0 <= i < j < |log| && log[i].Readmitted? && log[j].Readmitted? :: log[i].token != log[j].token
  }

  /** A detached entity is in no room, and its token is past detaching. */
  ghost predicate DetachSettled(s: Sys, d: Event)
    requires d.Detached?
  {
    && d.token in s.issuedTokens && d.player in s.issuedPlayers
    && (forall r | r in s.rooms :: d.player !in s.rooms[r].players)
    && (d.token in s.sessions ==> s.sessions[d.token].Held?)
    && (forall o | o in s.ops && OpToken(s.ops[o]) == Some(d.token) :: AfterDetach(s.ops[o]))
  }

  /** A token that brought its player back is carried by nothing any more. */
  ghost predicate ReadmitSettled(s: Sys, x: Event)
    requires x.Readmitted?
  {
    && x.token in s.issuedTokens && x.token !in s.sessions
    && (forall o | o in s.ops :: OpToken(s.ops[o]) != Some(x.token))
  }

  ghost predicate AllSettled(s: Sys) {
    && (forall i | 0 <= i < |s.log| && s.log[i].Detached? :: DetachSettled(s, s.log[i]))
    && (forall i | 0 <= i < |s.log| && s.log[i].Readmitted? :: ReadmitSettled(s, s.log[i]))
  }

  ghost predicate Historical(s: Sys) {
    && Remembers(s) && AllExplained(s.log)
    && DetachedOnce(s.log) && ReadmittedOnce(s.log) && AllSettled(s)
  }

  // ---- one critical section ----

  lemma OpStillRemembers(log: seq<Event>, more: seq<Event>, op: Op)
    requires OpRemembers(log, op)
    ensures OpRemembers(log + more, op)
  {
  }

  lemma SlotStillRemembers(log: seq<Event>, more: seq<Event>, t: Token, slot: Slot)
    requires SlotRemembers(log, t, slot)
    ensures SlotRemembers(log + more, t, slot)
  {
  }

  /** The continuation and the new slot of a step only carry recorded states. */
  lemma CallRemembers(s: Sys, o: OpId, step: Step)
    requires Enabled(s, o, step)
    requires o in s.ops ==> OpRemembers(s.log, s.ops[o])
    requires forall t | t in s.sessions :: SlotRemembers(s.log, t, s.sessions[t])
    ensures var e := EffectOf(s, o, step);
            && (e.op.Some? ==> OpRemembers(s.log + e.events, e.op.value))
            && (e.slot.Some? && e.slot.value.1.Some? ==>
                  SlotRemembers(s.log + e.events, e.slot.value.0, e.slot.value.1.value))
  {
    var e := EffectOf(s, o, step);
    match step {
      case DropHold =>
        if e.op.Some? {
          assert Detached(s.ops[o].token, s.ops[o].room, s.ops[o].player, s.ops[o].user, e.op.value.resume)
                 in s.log + e.events;
        }
      case DropPark(now) =>
        OpStillRemembers(s.log, e.events, s.ops[o]);
        assert e.events[0] in s.log + e.events;
      case ResumeTry(now) => assert s.log + e.events == s.log;
      case ResumeFindRoom => assert s.log + e.events == s.log;
      case _ =>
    }
  }

  lemma RemembersAfterCall(s: Sys, o: OpId, step: Step)
    requires Enabled(s, o, step) && Remembers(s)
    ensures Remembers(Commit(s, o, EffectOf(s, o, step)))
  {
    var e := EffectOf(s, o, step);
    var after := Commit(s, o, e);
    CallRemembers(s, o, step);
    forall k | k in after.ops
      ensures OpRemembers(after.log, after.ops[k])
    {
      if k != o {
        OpStillRemembers(s.log, e.events, s.ops[k]);
      }
    }
    forall t | t in after.sessions
      ensures SlotRemembers(after.log, t, after.sessions[t])
    {
      if t in s.sessions {
        SlotStillRemembers(s.log, e.events, t, s.sessions[t]);
      }
    }
  }

  /** The only event sequences a critical section writes. */
  lemma CallEvents(s: Sys, o: OpId, step: Step)
    requires Enabled(s, o, step)
    ensures var ev := EffectOf(s, o, step).events;
            && |ev| <= 2
            && (|ev| >= 1 && ev[0].Detached? ==> DetachFits(s, o, EffectOf(s, o, step), ev[0]))
            && (|ev| == 1 && ev[0].Readmitted? ==>
                  o in s.ops && IsHeldClaim(s.ops[o]) && ReadmitFits(s, o, EffectOf(s, o, step), ev[0])
                  && ev[0].st == s.ops[o].claim.resume)
            && (|ev| == 2 ==>
                  && ev[0].Detached? && ev[1].Readmitted? && ReadmitFits(s, o, EffectOf(s, o, step), ev[1])
                  && ev[1].claim.HandoffClaim? && ev[0].st == ev[1].st)
  {
  }

  /** A detach is written by a call that still carries the token, as it takes the entity out of its room. */
  predicate DetachFits(s: Sys, o: OpId, e: Effect, d: Event)
    requires d.Detached?
  {
    && o in s.ops && OpToken(s.ops[o]) == Some(d.token) && !AfterDetach(s.ops[o])
    && d.room in s.rooms && d.player in s.rooms[d.room].players
    && s.ops[o].room == d.room && s.ops[o].user == d.user
    && e.slot.None?
    && (e.op.Some? && OpToken(e.op.value).Some? ==> AfterDetach(e.op.value))
    && e.room.Some? && e.room.value.0 == d.room
    && (d.player in e.room.value.1.players ==> e.player == Some(d.player))
  }

  /** A readmission is the last thing done with its token. */
  predicate ReadmitFits(s: Sys, o: OpId, e: Effect, x: Event)
    requires x.Readmitted?
  {
    && o in s.ops && OpToken(s.ops[o]) == Some(x.token) && s.ops[o].ResumeInRoom?
    && s.ops[o].room == x.room && s.ops[o].user == x.user && s.ops[o].claim == x.claim
    && e.slot.None? && (e.op.Some? ==> OpToken(e.op.value).None?)
  }

  lemma EarlierStayExplained(log: seq<Event>, more: seq<Event>, j: nat)
    requires AllExplained(log) && j < |log| && log[j].Readmitted?
    ensures Explained(log + more, j)
  {
    assert (log + more)[..j] == log[..j];
    assert Explained(log, j);
  }

  lemma ExplainedAfterCall(s: Sys, o: OpId, step: Step)
    requires Enabled(s, o, step) && AllExplained(s.log)
    requires o in s.ops ==> OpRemembers(s.log, s.ops[o])
    ensures AllExplained(s.log + EffectOf(s, o, step).events)
  {
    var ev := EffectOf(s, o, step).events;
    var log := s.log + ev;
    CallEvents(s, o, step);
    forall j | 0 <= j < |log| && log[j].Readmitted?
      ensures Explained(log, j)
    {
      if j < |s.log| {
        EarlierStayExplained(s.log, ev, j);
      } else if j == |s.log| {
        assert log[..j] == s.log;
      } else {
        assert log[..j] == s.log + [ev[0]];
        assert ev[0] in log[..j];
        assert ev[0] == Detached(ev[0].token, ev[0].room, ev[0].player, ev[0].user, ev[0].st);
      }
    }
  }

  /** How a token and a seat may move: a token never moves back before its detach, a seat only to a new player. */
  predicate MovesForward(s: Sys, o: OpId, e: Effect) {
    var mine := if o in s.ops then OpToken(s.ops[o]) else None;
    && (e.op.Some? && OpToken(e.op.value).Some? ==>
          || (OpToken(e.op.value) == mine && (AfterDetach(s.ops[o]) ==> AfterDetach(e.op.value)))
          || (e.slot == Some((OpToken(e.op.value).value, None)) && OpToken(e.op.value).value in s.sessions
              && (s.sessions[OpToken(e.op.value).value].Held? ==> AfterDetach(e.op.value))))
    && (e.slot.Some? && e.slot.value.1.Some? ==>
          || e.token == Some(e.slot.value.0)
          || (Some(e.slot.value.0) == mine && e.slot.value.1.value.Held?))
    && (e.token.Some? ==> e.token.value !in s.issuedTokens)
  }

  lemma CallMovesForward(s: Sys, o: OpId, step: Step)
    requires Enabled(s, o, step)
    ensures MovesForward(s, o, EffectOf(s, o, step))
  {
  }

  predicate EachFits(s: Sys, o: OpId, e: Effect) {
    forall k | 0 <= k < |e.events| ::
      && (e.events[k].Detached? ==> DetachFits(s, o, e, e.events[k]))
      && (e.events[k].Readmitted? ==> ReadmitFits(s, o, e, e.events[k]))
  }

  lemma DetachesSettled(s: Sys, o: OpId, e: Effect, i: nat)
    requires AllSettled(s) && OneCarrier(s) && Seating(s)
    requires MovesForward(s, o, e) && StructuredEffect(s, e) && SeatsOn(s, e) && EachFits(s, o, e)
    requires i < |s.log + e.events| && (s.log + e.events)[i].Detached?
    ensures DetachSettled(Commit(s, o, e), (s.log + e.events)[i])
  {
  }

  lemma ReadmitsSettled(s: Sys, o: OpId, e: Effect, i: nat)
    requires AllSettled(s) && OneCarrier(s) && MovesForward(s, o, e) && EachFits(s, o, e)
    requires i < |s.log + e.events| && (s.log + e.events)[i].Readmitted?
    ensures ReadmitSettled(Commit(s, o, e), (s.log + e.events)[i])
  {
  }

  lemma SettledAfterCommit(s: Sys, o: OpId, e: Effect)
    requires AllSettled(s) && OneCarrier(s) && Seating(s)
    requires MovesForward(s, o, e) && StructuredEffect(s, e) && SeatsOn(s, e) && EachFits(s, o, e)
    ensures AllSettled(Commit(s, o, e))
  {
    forall i | 0 <= i < |s.log + e.events| && (s.log + e.events)[i].Detached?
      ensures DetachSettled(Commit(s, o, e), (s.log + e.events)[i])
    {
      DetachesSettled(s, o, e, i);
    }
    forall i | 0 <= i < |s.log + e.events| && (s.log + e.events)[i].Readmitted?
      ensures ReadmitSettled(Commit(s, o, e), (s.log + e.events)[i])
    {
      ReadmitsSettled(s, o, e, i);
    }
  }

  lemma CallFits(s: Sys, o: OpId, step: Step)
    requires Enabled(s, o, step)
    ensures EachFits(s, o, EffectOf(s, o, step))
  {
    CallEvents(s, o, step);
  }

  lemma SettledAfterCall(s: Sys, o: OpId, step: Step, e: Effect)
    requires AllSettled(s) && Structured(s) && OneCarrier(s) && Seating(s)
    requires Enabled(s, o, step) && e == EffectOf(s, o, step)
    ensures AllSettled(Commit(s, o, e))
  {
    CallMovesForward(s, o, step);
    CallIsStructured(s, o, step);
    CallSeatsOn(s, o, step);
    CallFits(s, o, step);
    SettledAfterCommit(s, o, e);
  }

  lemma OnceAfterCall(s: Sys, o: OpId, step: Step)
    requires Enabled(s, o, step) && AllSettled(s)
    requires DetachedOnce(s.log) && ReadmittedOnce(s.log)
    ensures DetachedOnce(s.log + EffectOf(s, o, step).events)
    ensures ReadmittedOnce(s.log + EffectOf(s, o, step).events)
  {
    var e := EffectOf(s, o, step);
    CallEvents(s, o, step);
    if |e.events| >= 1 && e.events[0].Detached? {
      forall i | 0 <= i < |s.log| && s.log[i].Detached?
        ensures s.log[i].token != e.events[0].token && s.log[i].player != e.events[0].player
      {
        assert DetachSettled(s, s.log[i]);
      }
    }
    forall i, k | 0 <= i < |s.log| && s.log[i].Readmitted? && 0 <= k < |e.events| && e.events[k].Readmitted?
      ensures s.log[i].token != e.events[k].token
    {
      assert ReadmitSettled(s, s.log[i]);
    }
  }

  lemma HistoryAfterCall(s: Sys, o: OpId, step: Step)
    requires Enabled(s, o, step) && Safe(s) && Historical(s)
    ensures Historical(Next(s, CallStep(o, step)))
  {
    RemembersAfterCall(s, o, step);
    ExplainedAfterCall(s, o, step);
    SettledAfterCall(s, o, step, EffectOf(s, o, step));
    OnceAfterCall(s, o, step);
  }

  // ---- the actions that write no history ----

  /** Tokens only leave the map, and operations that appear carry a token that was held. */
  predicate QuietChange(s: Sys, after: Sys) {
    && after.log == s.log
    && after.issuedTokens == s.issuedTokens && after.issuedPlayers == s.issuedPlayers
    && (forall t | t in after.sessions :: t in s.sessions && after.sessions[t] == s.sessions[t])
    && (forall o | o in after.ops :: (o in s.ops && after.ops[o] == s.ops[o]) || QuietOp(s, after.ops[o]))
    && (forall r, p | r in after.rooms && p in after.rooms[r].players :: r in s.rooms && p in s.rooms[r].players)
  }

  predicate QuietOp(s: Sys, op: Op) {
    op.Purging? || (op.Releasing? && op.token in s.sessions && s.sessions[op.token].Held?)
  }

  lemma QuietKeepsSettled(s: Sys, after: Sys)
    requires QuietChange(s, after) && AllSettled(s)
    ensures AllSettled(after)
  {
  }

  lemma QuietKeepsMemory(s: Sys, after: Sys)
    requires QuietChange(s, after) && Remembers(s)
    ensures Remembers(after)
  {
  }

  lemma OtherActionsAreQuiet(s: Sys, a: Action)
    requires CanHappen(s, a) && !a.CallStep?
    ensures QuietChange(s, Next(s, a))
  {
  }

  lemma ActionKeepsHistory(s: Sys, a: Action)
    requires CanHappen(s, a) && Safe(s) && Historical(s)
    ensures Historical(Next(s, a))
  {
    if a.CallStep? {
      HistoryAfterCall(s, a.o, a.step);
    } else {
      OtherActionsAreQuiet(s, a);
      QuietKeepsSettled(s, Next(s, a));
      QuietKeepsMemory(s, Next(s, a));
    }
  }

  lemma InitIsHistorical(graceMs: nat)
    ensures Historical(Init(graceMs))
  {
  }

  lemma {:induction false} RunsAreHistorical(states: seq<Sys>, graceMs: nat, i: nat)
    requires Run(states, graceMs) && i < |states|
    ensures Historical(states[i])
  {
    hide Historical, Next, CanHappen, Safe;
    if i == 0 {
      InitIsHistorical(graceMs);
    } else {
      RunsAreHistorical(states, graceMs, i - 1);
      RunsAreSafe(states, graceMs, i - 1);
      assert StepsTo(states, i);
      var a :| CanHappen(states[i - 1], a) && states[i] == Next(states[i - 1], a);
      ActionKeepsHistory(states[i - 1], a);
    }
  }
}
