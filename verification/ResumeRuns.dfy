/** Whole-run theorems about the resume protocol. */
module ResumeRuns {
  import opened Wrappers
  import opened RoomSeats
  import opened ResumeProtocol
  import opened ResumeInvariants

  // ---- the grace sweep keeps the books ----

  lemma SameSizeImage(tokens: set<Token>, ids: set<OpId>)
    requires ids == set t | t in tokens :: Swept(t)
    ensures |ids| == |tokens|
    decreases tokens
  {
    if tokens != {} {
      var t :| t in tokens;
      assert ids - {Swept(t)} == set u | u in tokens - {t} :: Swept(u);
      SameSizeImage(tokens - {t}, ids - {Swept(t)});
    }
  }

  /** The releases the sweep owes are new operations: nothing else carries an expired token. */
  lemma SweptOpsAreNew(s: Sys, expired: map<Token, Slot>)
    requires OneCarrier(s) && expired.Keys <= s.sessions.Keys
    ensures SweptOps(expired).Keys !! s.ops.Keys
  {
  }

  lemma SweptOpsOwe(expired: map<Token, Slot>, r: RoomId)
    requires forall t | t in expired :: expired[t].Held?
    ensures |OpsOwing(SweptOps(expired), r)| == |SlotsOwing(expired, r)|
  {
    var ids := set t | t in SlotsOwing(expired, r) :: Swept(t);
    SameSizeImage(SlotsOwing(expired, r), ids);
    assert OpsOwing(SweptOps(expired), r) == ids;
  }

  lemma OwingOfDisjointUnion(a: map<OpId, Op>, b: map<OpId, Op>, r: RoomId)
    requires a.Keys !! b.Keys
    ensures |OpsOwing(a + b, r)| == |OpsOwing(a, r)| + |OpsOwing(b, r)|
  {
    assert OpsOwing(a + b, r) == OpsOwing(a, r) + OpsOwing(b, r);
    assert OpsOwing(a, r) !! OpsOwing(b, r);
  }

  lemma OwingOfSplitSlots(sessions: map<Token, Slot>, part: map<Token, Slot>, r: RoomId)
    requires forall t | t in part :: t in sessions && part[t] == sessions[t]
    ensures |SlotsOwing(sessions, r)| == |SlotsOwing(sessions - part.Keys, r)| + |SlotsOwing(part, r)|
  {
    assert SlotsOwing(sessions, r) == SlotsOwing(sessions - part.Keys, r) + SlotsOwing(part, r);
    assert SlotsOwing(sessions - part.Keys, r) !! SlotsOwing(part, r);
  }

  /** Sweeping turns held tokens into owed releases, one for one. */
  lemma SweepMovesDebts(s: Sys, now: nat, r: RoomId)
    requires OneCarrier(s)
    ensures Owed(Sweep(s, now), r) == Owed(s, r)
  {
    var expired := ExpiredAt(s.sessions, now);
    SweptOpsAreNew(s, expired);
    SweptOpsOwe(expired, r);
    OwingOfDisjointUnion(s.ops, SweptOps(expired), r);
    OwingOfSplitSlots(s.sessions, expired, r);
  }

  lemma SweepConserves(s: Sys, now: nat)
    requires Conserved(s) && OneCarrier(s)
    ensures Conserved(Sweep(s, now))
  {
    forall r | r in s.rooms
      ensures ConservedIn(Sweep(s, now), r)
    {
      assert ConservedIn(s, r);
      SweepMovesDebts(s, now, r);
    }
  }

  lemma SweepCarriers(s: Sys, now: nat)
    requires OneCarrier(s)
    ensures OneCarrier(Sweep(s, now))
  {
    var expired := ExpiredAt(s.sessions, now);
    SweptOpsAreNew(s, expired);
    SweptOpsCarry(expired);
    hide SweptOps, ExpiredAt;
    assert expired.Keys <= s.sessions.Keys by { ExpiredTokensExist(s, now); }
  }

  lemma ExpiredTokensExist(s: Sys, now: nat)
    ensures ExpiredAt(s.sessions, now).Keys <= s.sessions.Keys
  {
  }

  lemma SweptOpsCarry(expired: map<Token, Slot>)
    ensures forall o | o in SweptOps(expired) ::
              o.Swept? && o.expired in expired && OwesRelease(SweptOps(expired)[o], o.expired)
              && OpToken(SweptOps(expired)[o]) == Some(o.expired)
  {
  }

  /** Forgetting tokens and adding operations that name nobody cannot create a second claimant. */
  lemma NamersOfFewer(s: Sys, after: Sys)
    requires NamesIssued(s) && OneNamer(s) && after.issuedPlayers == s.issuedPlayers
    requires forall o | o in after.ops && OpNames(after.ops[o]).Some? :: o in s.ops && after.ops[o] == s.ops[o]
    requires forall t | t in after.sessions :: t in s.sessions && after.sessions[t] == s.sessions[t]
    ensures NamesIssued(after) && OneNamer(after)
  {
  }

  lemma SweepNamesNobody(s: Sys, now: nat, o: OpId)
    requires o in Sweep(s, now).ops && OpNames(Sweep(s, now).ops[o]).Some?
    ensures o in s.ops && Sweep(s, now).ops[o] == s.ops[o]
  {
  }

  lemma SweepNamers(s: Sys, now: nat)
    requires NamesIssued(s) && OneNamer(s)
    ensures NamesIssued(Sweep(s, now)) && OneNamer(Sweep(s, now))
  {
    var after := Sweep(s, now);
    forall o | o in after.ops && OpNames(after.ops[o]).Some?
      ensures o in s.ops && after.ops[o] == s.ops[o]
    {
      SweepNamesNobody(s, now, o);
    }
    NamersOfFewer(s, after);
  }

  lemma SweepStructured(s: Sys, now: nat)
    requires Structured(s)
    ensures Structured(Sweep(s, now))
  {
  }

  // ---- eviction and purge ----

  lemma EvictConserves(s: Sys, o: OpId, gone: set<RoomId>)
    requires Conserved(s) && CanHappen(s, Evict(o, gone))
    ensures Conserved(Next(s, Evict(o, gone)))
  {
    var after := Next(s, Evict(o, gone));
    forall r | r in after.rooms
      ensures ConservedIn(after, r)
    {
      assert ConservedIn(s, r);
      assert OpsOwing(after.ops, r) == OpsOwing(s.ops, r);
    }
  }

  lemma PurgeConserves(s: Sys, o: OpId)
    requires Structured(s) && Conserved(s) && CanHappen(s, Purge(o))
    ensures Conserved(Next(s, Purge(o)))
  {
    var after := Next(s, Purge(o));
    forall r | r in after.rooms
      ensures ConservedIn(after, r)
    {
      assert ConservedIn(s, r);
      assert OpsOwing(after.ops, r) == OpsOwing(s.ops, r);
      assert SlotsOwing(after.sessions, r) == if r in s.ops[o].gone then {} else SlotsOwing(s.sessions, r);
    }
  }

  // ---- the simulation and the room set ----

  lemma RoomActionConserves(s: Sys, a: Action)
    requires Structured(s) && Conserved(s) && RoomAction(s, a)
    ensures Conserved(Next(s, a))
  {
    forall r | r in Next(s, a).rooms
      ensures ConservedIn(Next(s, a), r)
    {
      if r in s.rooms {
        assert ConservedIn(s, r);
      } else {
        assert SlotsOwing(s.sessions, r) == {};
        assert OpsOwing(s.ops, r) == {};
      }
    }
  }

  // ---- every action keeps the protocol safe ----

  lemma CallKeepsSafe(s: Sys, o: OpId, step: Step)
    requires Safe(s) && Enabled(s, o, step)
    ensures Safe(Next(s, CallStep(o, step)))
  {
    var e := EffectOf(s, o, step);
    CallIsStructured(s, o, step);
    StructureAfterCommit(s, o, e);
    ConservationOfCall(s, o, step, e);
    SeatsOfCall(s, o, step);
    CallCarriesOn(s, o, step);
    CarriersAfterCommit(s, o, e);
    CallNamesOn(s, o, step);
    CallSeatsOn(s, o, step);
    SeatingAfterCommit(s, o, e);
    IssuedAfterCommit(s, o, e);
    NamersAfterCommit(s, o, e);
  }

  predicate SameRegistry(s: Sys, after: Sys) {
    && after.sessions == s.sessions && after.ops == s.ops
    && after.issuedTokens == s.issuedTokens && after.issuedPlayers == s.issuedPlayers
  }

  lemma RegistryUntouched(s: Sys, after: Sys)
    requires OneCarrier(s) && NamesIssued(s) && OneNamer(s) && SameRegistry(s, after)
    ensures OneCarrier(after) && NamesIssued(after) && OneNamer(after)
  {
  }

  /** Creating, ticking or ending a room touches neither the token map nor the calls. */
  predicate RoomAction(s: Sys, a: Action) {
    (a.CreateRoom? || a.RoomTick? || a.RoomEnd?) && CanHappen(s, a)
  }

  lemma RoomActionSeating(s: Sys, a: Action)
    requires Seating(s) && RoomAction(s, a)
    ensures Seating(Next(s, a))
  {
  }

  lemma RoomActionStructured(s: Sys, a: Action)
    requires Structured(s) && RoomAction(s, a)
    ensures Structured(Next(s, a))
  {
  }

  lemma RoomActionKeepsSafe(s: Sys, a: Action)
    requires Safe(s) && RoomAction(s, a)
    ensures Safe(Next(s, a))
  {
    RoomActionConserves(s, a);
    RegistryUntouched(s, Next(s, a));
    RoomActionSeating(s, a);
    RoomActionStructured(s, a);
    RoomActionKeepsSeats(s, a);
  }

  lemma RoomActionKeepsSeats(s: Sys, a: Action)
    requires Seated(s) && RoomAction(s, a)
    ensures Seated(Next(s, a))
  {
  }

  lemma SweepKeepsSafe(s: Sys, now: nat)
    requires Safe(s)
    ensures Safe(Sweep(s, now))
  {
    SweepStructured(s, now);
    SweepConserves(s, now);
    SweepCarriers(s, now);
    SweepNamers(s, now);
  }

  lemma EvictKeepsSafe(s: Sys, o: OpId, gone: set<RoomId>)
    requires Safe(s) && CanHappen(s, Evict(o, gone))
    ensures Safe(Next(s, Evict(o, gone)))
  {
    EvictConserves(s, o, gone);
    EvictStructured(s, o, gone);
    EvictCarriers(s, o, gone);
    EvictSeating(s, o, gone);
    EvictNamers(s, o, gone);
    hide Next, CanHappen, Conserved, Structured, OneCarrier, Seated, Seating, NamesIssued, OneNamer;
  }

  lemma EvictNamers(s: Sys, o: OpId, gone: set<RoomId>)
    requires NamesIssued(s) && OneNamer(s) && CanHappen(s, Evict(o, gone))
    ensures NamesIssued(Next(s, Evict(o, gone))) && OneNamer(Next(s, Evict(o, gone)))
  {
    hide NamesIssued, OneNamer;
    NamersOfFewer(s, Next(s, Evict(o, gone)));
  }

  lemma EvictSeating(s: Sys, o: OpId, gone: set<RoomId>)
    requires Seated(s) && Seating(s) && CanHappen(s, Evict(o, gone))
    ensures Seated(Next(s, Evict(o, gone))) && Seating(Next(s, Evict(o, gone)))
  {
  }

  lemma EvictStructured(s: Sys, o: OpId, gone: set<RoomId>)
    requires Structured(s) && CanHappen(s, Evict(o, gone))
    ensures Structured(Next(s, Evict(o, gone)))
  {
  }

  lemma EvictCarriers(s: Sys, o: OpId, gone: set<RoomId>)
    requires OneCarrier(s) && CanHappen(s, Evict(o, gone))
    ensures OneCarrier(Next(s, Evict(o, gone)))
  {
  }

  lemma PurgeKeepsSafe(s: Sys, o: OpId)
    requires Safe(s) && CanHappen(s, Purge(o))
    ensures Safe(Next(s, Purge(o)))
  {
    PurgeConserves(s, o);
    NamersOfFewer(s, Next(s, Purge(o)));
  }

  lemma ActionKeepsSafe(s: Sys, a: Action)
    requires Safe(s) && CanHappen(s, a)
    ensures Safe(Next(s, a))
  {
    match a {
      case CallStep(o, step) => CallKeepsSafe(s, o, step);
      case GraceSweep(now) => SweepKeepsSafe(s, now);
      case Evict(o, gone) => EvictKeepsSafe(s, o, gone);
      case Purge(o) => PurgeKeepsSafe(s, o);
      case _ =>
        RoomActionKeepsSafe(s, a);
    }
  }

  lemma InitIsSafe(graceMs: nat)
    ensures Safe(Init(graceMs))
  {
  }

  /** Every state of every run is safe. */
  lemma {:induction false} RunsAreSafe(states: seq<Sys>, graceMs: nat, i: nat)
    requires Run(states, graceMs) && i < |states|
    ensures Safe(states[i])
  {
    if i == 0 {
      InitIsSafe(graceMs);
    } else {
      RunsAreSafe(states, graceMs, i - 1);
      assert StepsTo(states, i);
      var a :| CanHappen(states[i - 1], a) && states[i] == Next(states[i - 1], a);
      ActionKeepsSafe(states[i - 1], a);
    }
  }
}
