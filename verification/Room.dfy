/**
 The seat accounting of one room: admission, removal, and the reserved slots that
 keep a dropped player's place. The functions are the room's behaviour on values,
 for the protocol model; class `Room` is the same behaviour with fields updated in
 place. Only human players appear: fillers never take a seat.
 */
module RoomSeats {
  import opened Wrappers
  import opened GameMaps

  // Opaque identifiers; the program uses freshly minted UUID strings.
  type RoomId = nat
  type PlayerId = nat
  type UserId = nat

  /** The slice of a player that survives a drop. */
  datatype PlayerState = PlayerState(position: Position, direction: Direction, score: nat)

  datatype Seat = Seat(user: UserId, st: PlayerState)

  datatype Rejected = Inactive | Full | TooLateInMatch

  datatype RoomState = RoomState(active: bool, players: map<PlayerId, Seat>, reserved: nat, maxPlayers: nat)
  {
    predicate IsFull() {
      |players| + reserved >= maxPlayers
    }

    /** What capacity means: taken and promised seats never exceed the limit. */
    predicate SeatsWithinLimit() {
      |players| + reserved <= maxPlayers
    }

    function Remove(p: PlayerId): RoomState {
      this.(players := players - {p})
    }

    /** Saturating: releasing with nothing reserved leaves zero. */
    function Release(): RoomState {
      this.(reserved := if reserved == 0 then 0 else reserved - 1)
    }

    function Admit(p: PlayerId, seat: Seat): RoomState {
      this.(players := players[p := seat])
    }

    /** `tooLate` stands for the tick comparison of `accepting_new_joins`. */
    function JoinVerdict(tooLate: bool): Option<Rejected> {
      if !active then Some(Inactive) else if IsFull() then Some(Full)
      else if tooLate then Some(TooLateInMatch) else None
    }

    function TryAdd(p: PlayerId, seat: Seat, tooLate: bool): RoomState {
      if JoinVerdict(tooLate).None? then Admit(p, seat) else this
    }

    function Hold(p: PlayerId): RoomState {
      if p in players then this.(reserved := reserved + 1).Remove(p) else this
    }

    /** Judged after the reservation has been given back. */
    function ResumeVerdict(): Option<Rejected> {
      if !active then Some(Inactive) else if Release().IsFull() then Some(Full) else None
    }

    function Resume(p: PlayerId, seat: Seat): RoomState {
      if ResumeVerdict().None? then Release().Admit(p, seat) else Release()
    }
  }

  lemma AdmitCounts(room: RoomState, p: PlayerId, seat: Seat)
    ensures |room.Admit(p, seat).players| == if p in room.players then |room.players| else |room.players| + 1
  {
  }

  lemma RemoveCounts(room: RoomState, p: PlayerId)
    ensures |room.Remove(p).players| == if p in room.players then |room.players| - 1 else |room.players|
  {
  }

  /** Who is turned away, and what for. */
  lemma VerdictsAreExact(room: RoomState, tooLate: bool)
    ensures room.JoinVerdict(tooLate) == Some(Inactive) <==> !room.active
    ensures room.JoinVerdict(tooLate) == Some(Full)
       <==> room.active && room.maxPlayers <= |room.players| + room.reserved
    ensures room.JoinVerdict(tooLate) == Some(TooLateInMatch)
       <==> room.active && |room.players| + room.reserved < room.maxPlayers && tooLate
    ensures room.ResumeVerdict() == Some(Inactive) <==> !room.active
    ensures room.ResumeVerdict() == Some(Full)
       <==> && room.active
            && room.maxPlayers <= |room.players| + (if room.reserved > 0 then room.reserved - 1 else 0)
    ensures room.ResumeVerdict() != Some(TooLateInMatch)
  {
  }

  /** No room operation ever takes the room over its limit. */
  lemma SeatLimitIsKept(room: RoomState, p: PlayerId, seat: Seat, tooLate: bool)
    requires room.SeatsWithinLimit() && p !in room.players
    ensures room.TryAdd(p, seat, tooLate).SeatsWithinLimit()
    ensures room.Release().SeatsWithinLimit()
    ensures room.Resume(p, seat).SeatsWithinLimit()
  {
  }

  /** Holding trades a taken seat for a promised one; the total is unchanged. */
  lemma HoldTradesSeatForReservation(room: RoomState, p: PlayerId)
    ensures var after := room.Hold(p);
            |after.players| + after.reserved == |room.players| + room.reserved
            && p !in after.players
            && after.reserved == room.reserved + (if p in room.players then 1 else 0)
  {
  }

  /** Whoever owns a reservation in an active room is readmitted: the room cannot be full for them. */
  lemma ReservationGuaranteesReadmission(room: RoomState)
    requires room.SeatsWithinLimit() && room.active
    ensures room.reserved > 0 ==> room.ResumeVerdict().None?
    // and without a reservation the answer is the ordinary capacity test
    ensures room.reserved == 0 ==> (room.ResumeVerdict().None? <==> !room.IsFull())
  {
  }

  /** The room object: fields changed in place by the methods the manager calls under the room's write lock. */
  class Room {
    var isActive: bool
    var players: map<PlayerId, Seat>
    var reservedSlots: nat
    const maxPlayers: nat

    function View(): RoomState
      reads this
    {
      RoomState(isActive, players, reservedSlots, maxPlayers)
    }

    constructor (maxPlayers: nat)
      ensures View() == RoomState(true, map[], 0, maxPlayers)
    {
      isActive, players, reservedSlots := true, map[], 0;
      this.maxPlayers := maxPlayers;
    }

    method RemovePlayer(p: PlayerId)
      modifies this`players
      ensures View() == old(View()).Remove(p)
    {
      players := players - {p};
    }

    method ReleaseReservation()
      modifies this`reservedSlots
      ensures View() == old(View()).Release()
    {
      if reservedSlots > 0 {
        reservedSlots := reservedSlots - 1;
      }
    }

    method TryAddPlayer(p: PlayerId, seat: Seat, tooLate: bool) returns (rejected: Option<Rejected>)
      modifies this`players
      ensures View() == old(View()).TryAdd(p, seat, tooLate)
      ensures rejected == old(View()).JoinVerdict(tooLate)
    {
      if !isActive {
        return Some(Inactive);
      }
      if |players| + reservedSlots >= maxPlayers {
        return Some(Full);
      }
      if tooLate {
        return Some(TooLateInMatch);
      }
      players := players[p := seat];
      return None;
    }

    method HoldPlayerForResume(p: PlayerId) returns (held: Option<PlayerState>)
      modifies this`players, this`reservedSlots
      ensures View() == old(View()).Hold(p)
      ensures held == if p in old(players) then Some(old(players)[p].st) else None
    {
      if p !in players {
        return None;
      }
      held := Some(players[p].st);
      reservedSlots := reservedSlots + 1;
      RemovePlayer(p);
    }

    method ResumePlayer(p: PlayerId, user: UserId, resume: PlayerState) returns (rejected: Option<Rejected>)
      modifies this`players, this`reservedSlots
      ensures View() == old(View()).Resume(p, Seat(user, resume))
      ensures rejected == old(View()).ResumeVerdict()
    {
      ReleaseReservation();
      if !isActive {
        return Some(Inactive);
      }
      if |players| + reservedSlots >= maxPlayers {
        return Some(Full);
      }
      players := players[p := Seat(user, resume)];
      return None;
    }
  }
}
