/**
 The manager's two maps as an object. Each method is one critical section of the token
 map, or one room lock, exactly as the protocol model names them; the loops are the
 scans and retains the program runs over its hash maps, in an arbitrary order.
 */
module RoomManagement {
  import opened Wrappers
  import opened RoomSeats
  import opened ResumeProtocol
  import opened ResumeInvariants

  class RoomManager {
    var sessions: map<Token, Slot>
    var rooms: map<RoomId, Room>

    constructor ()
      ensures sessions == map[] && rooms == map[]
    {
      sessions, rooms := map[], map[];
    }

    /** The first section of a disconnect: it may act only on its own connection's registration. */
    method ClaimForDrop(t: Token, r: RoomId, p: PlayerId, user: UserId) returns (mine: bool)
      modifies this`sessions
      ensures mine == DropMatches(old(sessions), t, r, p, user)
      ensures sessions == if mine then SetSlot(old(sessions), t, None) else old(sessions)
    {
      if t in sessions {
        match sessions[t] {
          case Active(rid, pid, uid) =>
            if pid == p && rid == r && uid == user {
              sessions := sessions - {t};
              return true;
            }
          case Held(_, _, _, _) =>
        }
      }
      return false;
    }

    /** One peek-and-claim attempt of a resume: decide on the slot, then remove it if it is to be acted on. */
    method ClaimForResume(t: Token, user: UserId, now: nat) returns (claim: ClaimResult)
      modifies this`sessions
      ensures claim == Peek(old(sessions), t, user, now)
      ensures t !in old(sessions) ==> claim == Absent && sessions == old(sessions)
      ensures t in old(sessions) && old(sessions)[t].user != user ==> claim == WrongUser && sessions == old(sessions)
      ensures t in old(sessions) && old(sessions)[t].user == user ==>
                var slot := old(sessions)[t];
                && sessions == old(sessions) - {t}
                && (slot.Active? ==> claim == HandoffActive(slot.room, slot.player))
                && (slot.Held? && now <= slot.deadline ==> claim == ClaimedHeld(slot.room, slot.resume, slot.deadline))
                && (slot.Held? && now > slot.deadline ==> claim == Expired(slot.room))
    {
      if t !in sessions {
        return Absent;
      }
      var slot := sessions[t];
      if slot.user != user {
        return WrongUser;
      }
      sessions := sessions - {t};
      match slot {
        case Active(r, p, _) => return HandoffActive(r, p);
        case Held(r, _, st, deadline) =>
          if now > deadline {
            return Expired(r);
          }
          return ClaimedHeld(r, st, deadline);
      }
    }

    method RegisterActive(t: Token, r: RoomId, p: PlayerId, user: UserId)
      modifies this`sessions
      ensures sessions == SetSlot(old(sessions), t, Some(Active(r, p, user)))
    {
      sessions := sessions[t := Active(r, p, user)];
    }

    method ParkHeld(t: Token, r: RoomId, user: UserId, resume: PlayerState, now: nat, graceMs: nat)
      modifies this`sessions
      ensures sessions == SetSlot(old(sessions), t, Some(Held(r, user, resume, now + graceMs)))
    {
      var deadline := now + graceMs;
      sessions := sessions[t := Held(r, user, resume, deadline)];
    }

    /** The removed slot tells the caller whether a reservation has to be given back. */
    method ForgetResume(t: Token) returns (removed: Option<Slot>)
      modifies this`sessions
      ensures removed == At(old(sessions), t)
      ensures sessions == SetSlot(old(sessions), t, None)
    {
      removed := None;
      if t in sessions {
        removed := Some(sessions[t]);
      }
      sessions := sessions - {t};
    }

    /** The room is looked up in the map, then changed under its own lock. */
    method ReleaseIn(r: RoomId)
      modifies if r in rooms then {rooms[r]} else {}
      ensures r in rooms ==> rooms[r].View() == old(rooms[r].View()).Release()
    {
      if r in rooms {
        rooms[r].ReleaseReservation();
      }
    }

    /** The grace sweep's critical section: every expired token leaves the map, once, and is reported. */
    method DrainExpired(now: nat) returns (expired: map<Token, Slot>)
      modifies this`sessions
      ensures expired == ExpiredAt(old(sessions), now)
      ensures sessions == old(sessions) - expired.Keys
    {
      expired := map[];
      var todo := sessions.Keys;
      while todo != {}
        invariant sessions == old(sessions) && todo <= sessions.Keys
        invariant expired == map t | t in sessions && t !in todo && HeldPast(sessions[t], now) :: sessions[t]
        decreases todo
      {
        var t :| t in todo;
        todo := todo - {t};
        match sessions[t] {
          case Held(_, _, _, deadline) =>
            if now > deadline {
              expired := expired[t := sessions[t]];
            }
          case Active(_, _, _) =>
        }
      }
      var gone := expired.Keys;
      while gone != {}
        invariant gone <= expired.Keys
        invariant sessions == old(sessions) - (expired.Keys - gone)
        decreases gone
      {
        var t :| t in gone;
        gone := gone - {t};
        sessions := sessions - {t};
      }
    }

    /** `retain`: keep every registration that names another room. */
    method PurgeRoom(r: RoomId)
      modifies this`sessions
      ensures sessions == PurgeRooms(old(sessions), {r})
    {
      var todo := sessions.Keys;
      while todo != {}
        invariant todo <= sessions.Keys <= old(sessions).Keys
        invariant forall t | t in sessions :: sessions[t] == old(sessions)[t]
        invariant forall t | t in old(sessions) && t !in todo :: t in sessions <==> old(sessions)[t].room != r
        decreases todo
      {
        var t :| t in todo;
        todo := todo - {t};
        if sessions[t].room == r {
          sessions := sessions - {t};
        }
      }
    }

    /**
     The session a lost-token join is converted into: the user's held token with the
     latest deadline if there is one, otherwise any active token of the user.
     */
    method FindResumeTokenForUser(user: UserId) returns (found: Option<Token>)
      ensures found.Some? <==> exists t :: t in sessions && sessions[t].user == user
      ensures found.Some? ==> found.value in sessions && sessions[found.value].user == user
      ensures found.Some? ==> forall t | t in sessions && sessions[t].user == user && sessions[t].Held? ::
                sessions[found.value].Held? && sessions[t].deadline <= sessions[found.value].deadline
    {
      var bestHeld: Option<Token> := None;
      var anyActive: Option<Token> := None;
      var todo := sessions.Keys;
      while todo != {}
        invariant todo <= sessions.Keys
        invariant bestHeld.Some? ==> (bestHeld.value in sessions && sessions[bestHeld.value].Held?
                                      && sessions[bestHeld.value].user == user)
        invariant anyActive.Some? ==> (anyActive.value in sessions && sessions[anyActive.value].Active?
                                       && sessions[anyActive.value].user == user)
        invariant forall t | t in sessions && t !in todo && sessions[t].user == user ::
                    if sessions[t].Held?
                    then bestHeld.Some? && sessions[t].deadline <= sessions[bestHeld.value].deadline
                    else anyActive.Some?
        decreases todo
      {
        var t :| t in todo;
        todo := todo - {t};
        match sessions[t] {
          case Held(_, uid, _, deadline) =>
            if uid == user {
              if bestHeld.None? || deadline > sessions[bestHeld.value].deadline {
                bestHeld := Some(t);
              }
            }
          case Active(_, _, uid) =>
            if uid == user {
              anyActive := Some(t);
            }
        }
      }
      found := if bestHeld.Some? then bestHeld else anyActive;
    }
  }
}
