/** When an enemy kills a player: a persistent contact with one enemy life, confirmed on the victim's own timeline. */
module DeathContacts {
  import opened Wrappers

  type EnemyId = string

  const VICTIM_GRACE_PX := 9.0

  const CONTACT_TICKS_REQUIRED := 3

  const RAW_MIN := 14.5

  const HELP_MIN := 3.0

  const LEAD_MIN := 3.0

  function KillRadius(collisionDistance: real): real {
    collisionDistance - VICTIM_GRACE_PX
  }

  // ---- the contact run of one player ----

  datatype Contact = Contact(enemy: Option<EnemyId>, generation: nat, ticks: nat)

  const NO_CONTACT := Contact(None, 0, 0)

  datatype ContactEvent = Registered(enemy: EnemyId, generation: nat) | Cleared

  function Registering(c: Contact, enemy: EnemyId, generation: nat): Contact {
    if c.enemy == Some(enemy) && c.generation == generation
    then c.(ticks := c.ticks + 1)
    else Contact(Some(enemy), generation, 1)
  }

  function ContactAfter(events: seq<ContactEvent>): Contact {
    if events == [] then NO_CONTACT
    else
      match events[|events| - 1]
      case Registered(enemy, generation) => Registering(ContactAfter(events[..|events| - 1]), enemy, generation)
      case Cleared => NO_CONTACT
  }

  class Player {
    var contactEnemy: Option<EnemyId>
    var contactGeneration: nat
    var contactTicks: nat
    var contactLastDist: real
    ghost var events: seq<ContactEvent>

    ghost predicate Valid()
      reads this
    {
      Contact(contactEnemy, contactGeneration, contactTicks) == ContactAfter(events)
    }

    constructor ()
      ensures Valid() && events == []
    {
      contactEnemy, contactGeneration, contactTicks, contactLastDist := None, 0, 0, 0.0;
      events := [];
    }

    /** The length of the run, this tick included. */
    method RegisterDeathContact(enemy: EnemyId, generation: nat, dist: real) returns (ticks: nat)
      requires Valid()
      modifies this
      ensures Valid() && events == old(events) + [Registered(enemy, generation)] && contactLastDist == dist
      ensures forall n | n >= 1 :: ticks >= n <==> LastAre(events, n, enemy, generation)
    {
      events := events + [Registered(enemy, generation)];
      assert events[..|events| - 1] == old(events);
      if contactEnemy == Some(enemy) && contactGeneration == generation {
        contactTicks := contactTicks + 1;
      } else {
        contactEnemy, contactGeneration, contactTicks := Some(enemy), generation, 1;
      }
      contactLastDist := dist;
      ticks := contactTicks;
      forall n | n >= 1
        ensures ticks >= n <==> LastAre(events, n, enemy, generation)
      {
        RunCountsLastContacts(events, n, enemy, generation);
      }
    }

    method ClearDeathContact()
      requires Valid()
      modifies this
      ensures Valid() && events == old(events) + [Cleared] && contactLastDist == 0.0
    {
      events := events + [Cleared];
      contactEnemy, contactGeneration, contactTicks, contactLastDist := None, 0, 0, 0.0;
    }
  }

  /** The last `n` events all register this enemy life. */
  predicate LastAre(events: seq<ContactEvent>, n: nat, enemy: EnemyId, generation: nat) {
    n <= |events| && forall i | |events| - n <= i < |events| :: events[i] == Registered(enemy, generation)
  }

  /** The counter has reached `n` for an enemy life exactly when the last `n` events all registered it. */
  lemma {:induction false} RunCountsLastContacts(events: seq<ContactEvent>, n: nat, enemy: EnemyId, generation: nat)
    requires n >= 1
    ensures (var c := ContactAfter(events); c.enemy == Some(enemy) && c.generation == generation && c.ticks >= n)
       <==> LastAre(events, n, enemy, generation)
    decreases |events|
  {
    RunIsPositive(events);
    if events != [] {
      var init := events[..|events| - 1];
      RunIsPositive(init);
      if n > 1 {
        RunCountsLastContacts(init, n - 1, enemy, generation);
        LastAreOfInit(events, n, enemy, generation);
      }
    }
  }

  lemma LastAreOfInit(events: seq<ContactEvent>, n: nat, enemy: EnemyId, generation: nat)
    requires n >= 1 && events != []
    ensures LastAre(events, n, enemy, generation)
       <==> events[|events| - 1] == Registered(enemy, generation)
            && LastAre(events[..|events| - 1], n - 1, enemy, generation)
  {
  }

  lemma RunIsPositive(events: seq<ContactEvent>)
    ensures ContactAfter(events).enemy.Some? <==> ContactAfter(events).ticks >= 1
    ensures ContactAfter(events).ticks <= |events|
    decreases |events|
  {
  }

  // ---- the decision of one tick ----

  datatype ServerDecision = NoContact | TrackContact | KillPlayer

  datatype DelayReason = VisibleGap | NoVisibleHistory | PredictionUncertain

  datatype Decision = NoServerContact | Track | Delay(reason: DelayReason) | Kill

  /** What the victim was shown: the enemy's drawn distance now, and with the victim projected forward by its lead. */
  datatype Sight = Sight(visible: Option<real>, projected: Option<real>, lead: Option<real>)

  function ServerContact(dist: real, radius: real, ticks: nat, required: nat, shielded: bool): ServerDecision {
    if shielded || dist >= radius then NoContact
    else if ticks >= required then KillPlayer else TrackContact
  }

  predicate Uncertain(s: Sight) {
    && s.visible.Some? && s.projected.Some? && s.lead.Some?
    && s.visible.value > RAW_MIN && s.visible.value - s.projected.value > HELP_MIN && s.lead.value >= LEAD_MIN
  }

  /** `gate` is the visible-confirm radius, or nothing while the gate only observes. */
  function Evaluate(dist: real, radius: real, ticks: nat, required: nat, gate: Option<real>, s: Sight): Decision {
    match ServerContact(dist, radius, ticks, required, false)
    case NoContact => NoServerContact
    case TrackContact => Track
    case KillPlayer =>
      if gate.None? then Kill
      else if s.visible.None? then Delay(NoVisibleHistory)
      else if s.visible.value > gate.value then Delay(VisibleGap)
      else if s.projected.Some? && s.projected.value > gate.value then Delay(VisibleGap)
      else if s.projected.Some? && Uncertain(s) then Delay(PredictionUncertain)
      else Kill
  }

  /** What the victim saw confirms the kill. */
  predicate Confirmed(gate: real, s: Sight) {
    && s.visible.Some? && s.visible.value <= gate
    && (s.projected.Some? ==> s.projected.value <= gate)
    && !Uncertain(s)
  }

  /** A long enough contact inside the kill radius. */
  predicate Lethal(dist: real, radius: real, ticks: nat, required: nat) {
    dist < radius && required <= ticks
  }

  /** Each decision by what the server and the victim saw. */
  lemma DecisionsAreExact(dist: real, radius: real, ticks: nat, required: nat, gate: Option<real>, s: Sight)
    ensures var d := Evaluate(dist, radius, ticks, required, gate, s);
            && (d == NoServerContact <==> dist >= radius)
            && (d == Track <==> dist < radius && ticks < required)
            && (d == Delay(NoVisibleHistory) <==>
                  Lethal(dist, radius, ticks, required) && gate.Some? && s.visible.None?)
            && (d == Delay(VisibleGap) <==>
                  && Lethal(dist, radius, ticks, required) && gate.Some? && s.visible.Some?
                  && (s.visible.value > gate.value || (s.projected.Some? && s.projected.value > gate.value)))
            && (d == Delay(PredictionUncertain) <==>
                  && Lethal(dist, radius, ticks, required) && gate.Some? && s.visible.Some? && s.projected.Some?
                  && s.visible.value <= gate.value && s.projected.value <= gate.value
                  && s.visible.value > 14.5 && s.projected.value < s.visible.value - 3.0
                  && s.lead.Some? && s.lead.value >= 3.0)
            && (d == Kill ==> Lethal(dist, radius, ticks, required))
  {
  }

  /** Arming the gate turns some kills into delays and changes no other decision. */
  lemma ArmingOnlyDelaysKills(dist: real, radius: real, ticks: nat, required: nat, gate: real, s: Sight)
    ensures var armed := Evaluate(dist, radius, ticks, required, Some(gate), s);
            var observed := Evaluate(dist, radius, ticks, required, None, s);
            && (observed == Kill ==> armed == Kill || armed.Delay?)
            && (observed != Kill ==> armed == observed)
            && (armed == Kill <==> observed == Kill && Confirmed(gate, s))
  {
  }

  /** A kill stays a kill when the enemy was drawn closer, or when the contact is closer or has lasted longer. */
  lemma CloserContactStillKills(dist: real, radius: real, ticks: nat, required: nat, gate: Option<real>, s: Sight,
                                dist': real, ticks': nat, s': Sight)
    requires Evaluate(dist, radius, ticks, required, gate, s) == Kill
    requires dist' <= dist && ticks' >= ticks && s' == s.(visible := s'.visible)
    requires s.visible.Some? ==> s'.visible.Some? && s'.visible.value <= s.visible.value
    ensures Evaluate(dist', radius, ticks', required, gate, s') == Kill
  {
  }

  /**
   Not so for the projected distance: with a closer projection a kill stays a kill if and
   only if the gate only observes or the prediction is not uncertain; otherwise it is delayed.
   */
  lemma CloserProjectionKillsIff(dist: real, radius: real, ticks: nat, required: nat, gate: Option<real>, s: Sight,
                                 s': Sight)
    requires Evaluate(dist, radius, ticks, required, gate, s) == Kill && s' == s.(projected := s'.projected)
    requires s.projected.Some? && s'.projected.Some? && s'.projected.value <= s.projected.value
    ensures Evaluate(dist, radius, ticks, required, gate, s')
         == if gate.None? || !Uncertain(s') then Kill else Delay(PredictionUncertain)
  {
  }

  /** The second case occurs: the kill at 13 pixels is delayed when the projection says 9.72. */
  lemma CloserProjectionCanDelay()
    ensures var far, near := Sight(Some(15.81), Some(13.0), Some(4.0)), Sight(Some(15.81), Some(9.72), Some(4.0));
            && Evaluate(5.0, 11.0, 3, 3, Some(18.0), far) == Kill
            && Evaluate(5.0, 11.0, 3, 3, Some(18.0), near) == Delay(PredictionUncertain)
  {
  }

  // ---- whole runs ----

  /**
   One tick of one player: nobody in reach (or shielded), or the closest enemy in reach;
   `executed` says whether the room carries out a kill decided in this tick, which respawns the player.
   */
  datatype Tick = Quiet | InReach(enemy: EnemyId, generation: nat, dist: real, sight: Sight, executed: bool)

  datatype Rules = Rules(collisionDistance: real, gate: Option<real>)
  {
    function Radius(): real {
      KillRadius(collisionDistance)
    }
  }

  function DecisionOf(rules: Rules, before: seq<ContactEvent>, t: Tick): Decision {
    if t.Quiet? then NoServerContact
    else
      var events := before + [Registered(t.enemy, t.generation)];
      Evaluate(t.dist, rules.Radius(), ContactAfter(events).ticks, CONTACT_TICKS_REQUIRED, rules.gate, t.sight)
  }

  /** The contact events of a run: each tick registers or clears, and an executed kill clears. */
  function EventsOf(rules: Rules, ticks: seq<Tick>): seq<ContactEvent> {
    if ticks == [] then []
    else
      var before, last := EventsOf(rules, ticks[..|ticks| - 1]), ticks[|ticks| - 1];
      if last.Quiet? then before + [Cleared]
      else
        before + [Registered(last.enemy, last.generation)]
        + (if last.executed && DecisionOf(rules, before, last) == Kill then [Cleared] else [])
  }

  function DecisionAt(rules: Rules, ticks: seq<Tick>, i: nat): Decision
    requires i < |ticks|
  {
    DecisionOf(rules, EventsOf(rules, ticks[..i]), ticks[i])
  }

  predicate InReachOf(t: Tick, enemy: EnemyId, generation: nat) {
    t.InReach? && t.enemy == enemy && t.generation == generation
  }

  /** The last `n` ticks up to `i` were all spent in reach of this enemy life. */
  predicate StayedInReach(ticks: seq<Tick>, i: nat, n: nat, enemy: EnemyId, generation: nat)
    requires i < |ticks|
  {
    n <= i + 1 && forall k | i + 1 - n <= k <= i :: InReachOf(ticks[k], enemy, generation)
  }

  /** No kill was decided and executed in the `n` ticks before `i`. */
  predicate NoKillBefore(rules: Rules, ticks: seq<Tick>, i: nat, n: nat)
    requires n <= i < |ticks|
  {
    forall k | i - n <= k < i :: !KilledAt(rules, ticks, k)
  }

  predicate KilledAt(rules: Rules, ticks: seq<Tick>, k: nat)
    requires k < |ticks|
  {
    ticks[k].InReach? && ticks[k].executed && DecisionAt(rules, ticks, k) == Kill
  }

  lemma EventsOfSnoc(rules: Rules, ticks: seq<Tick>, i: nat)
    requires i < |ticks|
    ensures ticks[i].Quiet? ==> EventsOf(rules, ticks[..i + 1]) == EventsOf(rules, ticks[..i]) + [Cleared]
    ensures ticks[i].InReach? ==>
              EventsOf(rules, ticks[..i + 1]) ==
                EventsOf(rules, ticks[..i]) + [Registered(ticks[i].enemy, ticks[i].generation)]
                + (if KilledAt(rules, ticks, i) then [Cleared] else [])
  {
    hide DecisionOf;
    assert ticks[..i + 1][..i] == ticks[..i];
  }

  /**
   The last `n` events before tick `i` register one enemy life exactly when its last `n` ticks
   were spent in its reach, with no kill executed.
   */
  lemma {:induction false} EventsAreTicks(rules: Rules, ticks: seq<Tick>, i: nat, n: nat, enemy: EnemyId,
                                          generation: nat)
    requires i < |ticks| && n >= 1
    ensures LastAre(EventsOf(rules, ticks[..i]), n, enemy, generation)
       <==> i >= 1 && StayedInReach(ticks, i - 1, n, enemy, generation) && NoKillBefore(rules, ticks, i, n)
    decreases i
  {
    hide KilledAt;
    if i > 0 {
      var before, events := EventsOf(rules, ticks[..i - 1]), EventsOf(rules, ticks[..i]);
      EventsOfSnoc(rules, ticks, i - 1);
      LastAreOfInit(events, n, enemy, generation);
      if ticks[i - 1].InReach? && !KilledAt(rules, ticks, i - 1) {
        assert events[..|events| - 1] == before;
        if n > 1 {
          EventsAreTicks(rules, ticks, i - 1, n - 1, enemy, generation);
        }
      }
    } else {
      assert ticks[..0] == [];
    }
  }

  /**
   With the gate observing, a tick decides a kill if and only if its enemy is inside the
   kill radius and was in reach, in the same life, on each of the last three ticks with
   no kill executed in the two before. An armed gate asks for the victim's view besides.
   */
  lemma KillIffPersistentContact(rules: Rules, ticks: seq<Tick>, i: nat)
    requires i < |ticks|
    ensures DecisionAt(rules, ticks, i) == Kill
       <==> && ticks[i].InReach? && ticks[i].dist + 9.0 < rules.collisionDistance
            && i + 1 >= CONTACT_TICKS_REQUIRED
            && StayedInReach(ticks, i, CONTACT_TICKS_REQUIRED, ticks[i].enemy, ticks[i].generation)
            && NoKillBefore(rules, ticks, i, CONTACT_TICKS_REQUIRED - 1)
            && (rules.gate.Some? ==> Confirmed(rules.gate.value, ticks[i].sight))
  {
    if ticks[i].InReach? {
      var enemy, generation := ticks[i].enemy, ticks[i].generation;
      var before := EventsOf(rules, ticks[..i]);
      var events := before + [Registered(enemy, generation)];
      RunCountsLastContacts(events, CONTACT_TICKS_REQUIRED, enemy, generation);
      assert events[..|events| - 1] == before;
      LastAreOfInit(events, CONTACT_TICKS_REQUIRED, enemy, generation);
      EventsAreTicks(rules, ticks, i, CONTACT_TICKS_REQUIRED - 1, enemy, generation);
      DecisionByTicks(rules, before, ticks[i]);
      hide EventsOf, LastAre, Confirmed, KilledAt, ContactAfter, DecisionOf;
      StayedOneMore(ticks, i, enemy, generation);
    }
  }

  lemma DecisionByTicks(rules: Rules, before: seq<ContactEvent>, t: Tick)
    requires t.InReach?
    ensures DecisionOf(rules, before, t) == Kill
       <==> && t.dist < rules.Radius()
            && ContactAfter(before + [Registered(t.enemy, t.generation)]).ticks >= CONTACT_TICKS_REQUIRED
            && (rules.gate.Some? ==> Confirmed(rules.gate.value, t.sight))
    ensures ContactAfter(before + [Registered(t.enemy, t.generation)]).enemy == Some(t.enemy)
    ensures ContactAfter(before + [Registered(t.enemy, t.generation)]).generation == t.generation
  {
  }

  lemma StayedOneMore(ticks: seq<Tick>, i: nat, enemy: EnemyId, generation: nat)
    requires i < |ticks| && InReachOf(ticks[i], enemy, generation)
    ensures StayedInReach(ticks, i, CONTACT_TICKS_REQUIRED, enemy, generation)
       <==> i >= 1 && StayedInReach(ticks, i - 1, CONTACT_TICKS_REQUIRED - 1, enemy, generation)
  {
  }

  /** On the same ticks, the first kill with the gate armed is no earlier than the first kill without it. */
  lemma ArmingNeverKillsSooner(collision: real, gate: real, ticks: seq<Tick>, i: nat)
    requires i < |ticks| && DecisionAt(Rules(collision, Some(gate)), ticks, i) == Kill
    ensures exists j: nat | j <= i :: DecisionAt(Rules(collision, None), ticks, j) == Kill
  {
    var armed, observing := Rules(collision, Some(gate)), Rules(collision, None);
    if forall j: nat | j < i :: DecisionAt(observing, ticks, j) != Kill {
      SameEventsUntilKill(collision, gate, ticks, i);
      ArmedKillIsObserved(collision, gate, EventsOf(observing, ticks[..i]), ticks[i]);
      assert DecisionAt(observing, ticks, i) == Kill;
    } else {
      var j: nat :| j < i && DecisionAt(observing, ticks, j) == Kill;
      assert j <= i;
    }
  }

  lemma ArmedKillIsObserved(collision: real, gate: real, before: seq<ContactEvent>, t: Tick)
    ensures DecisionOf(Rules(collision, Some(gate)), before, t) == Kill ==>
              DecisionOf(Rules(collision, None), before, t) == Kill
  {
  }

  lemma {:induction false} SameEventsUntilKill(collision: real, gate: real, ticks: seq<Tick>, i: nat)
    requires i < |ticks| && (forall j: nat | j < i :: DecisionAt(Rules(collision, None), ticks, j) != Kill)
    ensures EventsOf(Rules(collision, Some(gate)), ticks[..i]) == EventsOf(Rules(collision, None), ticks[..i])
    decreases i
  {
    hide DecisionOf;
    if i > 0 {
      var armed, observing := Rules(collision, Some(gate)), Rules(collision, None);
      SameEventsUntilKill(collision, gate, ticks, i - 1);
      EventsOfSnoc(armed, ticks, i - 1);
      EventsOfSnoc(observing, ticks, i - 1);
      ArmedKillIsObserved(collision, gate, EventsOf(observing, ticks[..i - 1]), ticks[i - 1]);
    } else {
      assert ticks[..0] == [];
    }
  }
}
