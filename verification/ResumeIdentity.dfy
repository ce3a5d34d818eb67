/** A token, and every call that carries it, speaks for the user who actually sits in the seat. */
module ResumeIdentity {
  import opened Wrappers
  import opened RoomSeats
  import opened ResumeProtocol
  import opened ResumeInvariants
  import opened ResumeRuns

  /** If `p` still sits anywhere, it sits in `r` and belongs to `user`. */
  ghost predicate Belongs(s: Sys, r: RoomId, p: PlayerId, user: UserId) {
    forall k | k in s.rooms && p in s.rooms[k].players :: k == r && s.rooms[k].players[p].user == user
  }

  ghost predicate SlotHonest(s: Sys, slot: Slot) {
    slot.Active? ==> Belongs(s, slot.room, slot.player, slot.user)
  }

  ghost predicate OpHonest(s: Sys, op: Op) {
    OpNames(op).Some? ==> Belongs(s, op.room, OpNames(op).value, op.user)
  }

  ghost predicate Honest(s: Sys) {
    && (forall t | t in s.sessions :: SlotHonest(s, s.sessions[t]))
    && (forall o | o in s.ops :: OpHonest(s, s.ops[o]))
  }

  /** A seat never changes hands: after a step `p` sits where it sat, for the same user, or has just been admitted. */
  predicate SeatsStay(s: Sys, after: Sys, minted: Option<PlayerId>) {
    forall r, p | r in after.rooms && p in after.rooms[r].players && minted != Some(p) ::
      r in s.rooms && p in s.rooms[r].players && after.rooms[r].players[p].user == s.rooms[r].players[p].user
  }

  lemma StillBelongs(s: Sys, after: Sys, minted: Option<PlayerId>, r: RoomId, p: PlayerId, user: UserId)
    requires Belongs(s, r, p, user) && SeatsStay(s, after, minted) && minted != Some(p)
    ensures Belongs(after, r, p, user)
  {
  }

  lemma CommitSeatsStay(s: Sys, o: OpId, e: Effect)
    requires RoomSeatsStay(s, e) && StructuredEffect(s, e)
    ensures SeatsStay(s, Commit(s, o, e), e.player)
  {
  }

  /**
   Who a step's continuation and new slot speak for: the one its call or the removed slot spoke
   for, or the admitted player.
   */
  predicate SpeaksFor(s: Sys, o: OpId, e: Effect) {
    OpSpeaksFor(s, o, e) && SlotSpeaksFor(s, o, e)
  }

  predicate OpSpeaksFor(s: Sys, o: OpId, e: Effect) {
    && (e.op.Some? && OpNames(e.op.value).Some? ==>
          || (o in s.ops && OpNames(s.ops[o]) == OpNames(e.op.value)
              && s.ops[o].room == e.op.value.room && s.ops[o].user == e.op.value.user)
          || (e.slot.Some? && e.slot.value.0 in s.sessions
              && s.sessions[e.slot.value.0] == Active(e.op.value.room, OpNames(e.op.value).value, e.op.value.user))
          || (e.player == OpNames(e.op.value) && e.room.Some? && e.room.value.0 == e.op.value.room
              && e.player.value in e.room.value.1.players
              && e.room.value.1.players[e.player.value].user == e.op.value.user))
  }

  predicate SlotSpeaksFor(s: Sys, o: OpId, e: Effect) {
    && (e.slot.Some? && e.slot.value.1.Some? && e.slot.value.1.value.Active? ==>
          o in s.ops && OpNames(s.ops[o]) == Some(e.slot.value.1.value.player)
          && s.ops[o].room == e.slot.value.1.value.room && s.ops[o].user == e.slot.value.1.value.user)
  }

  lemma CallSpeaksFor(s: Sys, o: OpId, step: Step)
    requires Enabled(s, o, step)
    ensures SpeaksFor(s, o, EffectOf(s, o, step))
  {
    CallOpSpeaksFor(s, o, step);
    hide OpSpeaksFor;
  }

  lemma CallOpSpeaksFor(s: Sys, o: OpId, step: Step)
    requires Enabled(s, o, step)
    ensures OpSpeaksFor(s, o, EffectOf(s, o, step))
  {
  }

  lemma NewOpHonest(s: Sys, o: OpId, e: Effect)
    requires Honest(s) && Seating(s) && NamesIssued(s) && SeatsOn(s, e)
    requires SpeaksFor(s, o, e) && SeatsStay(s, Commit(s, o, e), e.player) && e.op.Some?
    ensures OpHonest(Commit(s, o, e), e.op.value)
  {
  }

  lemma HonestAfterCommit(s: Sys, o: OpId, e: Effect)
    requires Honest(s) && Seating(s) && NamesIssued(s) && SeatsOn(s, e)
    requires SpeaksFor(s, o, e) && SeatsStay(s, Commit(s, o, e), e.player)
    ensures Honest(Commit(s, o, e))
  {
    var after := Commit(s, o, e);
    forall k | k in after.ops
      ensures OpHonest(after, after.ops[k])
    {
      if k == o {
        NewOpHonest(s, o, e);
      } else if OpNames(s.ops[k]).Some? {
        assert OpHonest(s, s.ops[k]);
        StillBelongs(s, after, e.player, s.ops[k].room, OpNames(s.ops[k]).value, s.ops[k].user);
      }
    }
    forall t | t in after.sessions
      ensures SlotHonest(after, after.sessions[t])
    {
      var slot := after.sessions[t];
      if slot.Active? {
        if t in s.sessions && s.sessions[t] == slot {
          assert SlotHonest(s, slot);
        } else {
          assert OpHonest(s, s.ops[o]);
        }
        StillBelongs(s, after, e.player, slot.room, slot.player, slot.user);
      }
    }
  }

  lemma HonestAfterCall(s: Sys, o: OpId, step: Step, e: Effect)
    requires Honest(s) && Structured(s) && Seating(s) && NamesIssued(s)
    requires Enabled(s, o, step) && e == EffectOf(s, o, step)
    ensures Honest(Commit(s, o, e))
  {
    CallIsStructured(s, o, step);
    CallRoomSeatsStay(s, o, step);
    CommitSeatsStay(s, o, e);
    CallSeatsOn(s, o, step);
    CallSpeaksFor(s, o, step);
    HonestAfterCommit(s, o, e);
  }

  lemma OtherActionsSeatsStay(s: Sys, a: Action)
    requires CanHappen(s, a) && !a.CallStep?
    ensures SeatsStay(s, Next(s, a), None)
  {
  }

  lemma OtherActionsHonest(s: Sys, a: Action)
    requires CanHappen(s, a) && !a.CallStep? && Honest(s)
    ensures Honest(Next(s, a))
  {
    var after := Next(s, a);
    OtherActionsSeatsStay(s, a);
    forall o | o in after.ops
      ensures OpHonest(after, after.ops[o])
    {
      if OpNames(after.ops[o]).Some? {
        assert o in s.ops && after.ops[o] == s.ops[o];
        assert OpHonest(s, s.ops[o]);
        StillBelongs(s, after, None, s.ops[o].room, OpNames(s.ops[o]).value, s.ops[o].user);
      }
    }
    forall t | t in after.sessions
      ensures SlotHonest(after, after.sessions[t])
    {
      var slot := after.sessions[t];
      assert t in s.sessions && slot == s.sessions[t];
      assert SlotHonest(s, slot);
      if slot.Active? {
        StillBelongs(s, after, None, slot.room, slot.player, slot.user);
      }
    }
  }

  lemma ActionKeepsHonest(s: Sys, a: Action)
    requires CanHappen(s, a) && Safe(s) && Honest(s)
    ensures Honest(Next(s, a))
  {
    if a.CallStep? {
      HonestAfterCall(s, a.o, a.step, EffectOf(s, a.o, a.step));
    } else {
      OtherActionsHonest(s, a);
    }
  }

  lemma InitIsHonest(graceMs: nat)
    ensures Honest(Init(graceMs))
  {
  }

  lemma {:induction false} RunsAreHonest(states: seq<Sys>, graceMs: nat, i: nat)
    requires Run(states, graceMs) && i < |states|
    ensures Honest(states[i])
  {
    hide Honest, Next, CanHappen, Safe;
    if i == 0 {
      InitIsHonest(graceMs);
    } else {
      RunsAreHonest(states, graceMs, i - 1);
      RunsAreSafe(states, graceMs, i - 1);
      assert StepsTo(states, i);
      var a :| CanHappen(states[i - 1], a) && states[i] == Next(states[i - 1], a);
      ActionKeepsHonest(states[i - 1], a);
    }
  }
}
