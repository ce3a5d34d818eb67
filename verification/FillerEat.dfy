/** When a server-driven filler may eat a player it overlaps. */
module FillerEats {
  import opened Wrappers

  type PlayerId = string

  const U32_MAX := 0xFFFF_FFFF

  datatype Rules = Rules(sustainedTicks: nat, cooldownTicks: nat, minAdmissionAge: nat)
  {
    predicate Valid() {
      sustainedTicks <= U32_MAX
    }

    /** Even a threshold of zero needs the overlap of the current tick. */
    function Needed(): nat {
      if sustainedTicks == 0 then 1 else sustainedTicks
    }
  }

  datatype Reason =
    | VictimDead | SafeZone | SpawnProtected | Invincible | ResumeShield
    | ScoreNotGreater | NotClaimReady | TooRecentlyAdmitted

  datatype Candidate = Candidate(
    victimId: PlayerId, victimLife: nat, victimIsHuman: bool, victimAlive: bool, victimSpawnProtected: bool,
    victimInvincible: bool, victimResumeShielded: bool, victimClaimReady: bool, victimAdmissionAge: nat,
    eitherInSafeZone: bool, attackerScore: nat, victimScore: nat)

  datatype Verdict = NotYet | Reject(reason: Reason) | Eat

  datatype Run = Run(victimId: PlayerId, victimLife: nat, ticks: nat, lastTick: nat, reported: Option<Reason>)

  /** What the policy remembers about one attacker. */
  datatype Attacker = Attacker(run: Option<Run>, cooldownUntil: Option<nat>)

  const NEWCOMER := Attacker(None, None)

  function Blocked(rules: Rules, c: Candidate): Option<Reason> {
    if !c.victimAlive then Some(VictimDead)
    else if c.eitherInSafeZone then Some(SafeZone)
    else if c.victimSpawnProtected then Some(SpawnProtected)
    else if c.victimInvincible then Some(Invincible)
    else if c.victimResumeShielded then Some(ResumeShield)
    else if c.attackerScore <= c.victimScore then Some(ScoreNotGreater)
    else if c.victimIsHuman && !c.victimClaimReady then Some(NotClaimReady)
    else if c.victimIsHuman && c.victimAdmissionAge < rules.minAdmissionAge then Some(TooRecentlyAdmitted)
    else None
  }

  /** What each reason says of the candidate. */
  predicate Holds(rules: Rules, c: Candidate, r: Reason) {
    match r
    case VictimDead => !c.victimAlive
    case SafeZone => c.eitherInSafeZone
    case SpawnProtected => c.victimSpawnProtected
    case Invincible => c.victimInvincible
    case ResumeShield => c.victimResumeShielded
    case ScoreNotGreater => c.victimScore >= c.attackerScore
    case NotClaimReady => c.victimIsHuman && !c.victimClaimReady
    case TooRecentlyAdmitted => c.victimIsHuman && c.victimAdmissionAge < rules.minAdmissionAge
  }

  /** The reasons, hardest fact first. */
  const SEVERITY: seq<Reason> := [VictimDead, SafeZone, SpawnProtected, Invincible, ResumeShield,
                                  ScoreNotGreater, NotClaimReady, TooRecentlyAdmitted]

  /** A fair meal: alive, out of the safe zone, unprotected, smaller and, if human, ready and not just admitted. */
  lemma EdibleIff(rules: Rules, c: Candidate)
    ensures Blocked(rules, c) == None <==>
              && c.victimAlive && !c.eitherInSafeZone
              && !c.victimSpawnProtected && !c.victimInvincible && !c.victimResumeShielded
              && c.attackerScore > c.victimScore
              && (c.victimIsHuman ==> c.victimClaimReady && rules.minAdmissionAge <= c.victimAdmissionAge)
  {
  }

  /** What is reported holds of the candidate, and nothing harder does. */
  lemma HardestReasonBlocks(rules: Rules, c: Candidate, k: nat)
    requires k < |SEVERITY|
    ensures Blocked(rules, c) == Some(SEVERITY[k]) <==>
              Holds(rules, c, SEVERITY[k]) && forall j | 0 <= j < k :: !Holds(rules, c, SEVERITY[j])
  {
    assert SEVERITY[0] == VictimDead && SEVERITY[1] == SafeZone && SEVERITY[2] == SpawnProtected;
    assert SEVERITY[3] == Invincible && SEVERITY[4] == ResumeShield && SEVERITY[5] == ScoreNotGreater;
    assert SEVERITY[6] == NotClaimReady && SEVERITY[7] == TooRecentlyAdmitted;
  }

  predicate CoolingDown(a: Attacker, tick: nat) {
    a.cooldownUntil.Some? && tick < a.cooldownUntil.value
  }

  /** The run continued by this overlap, or a fresh one. */
  function Continued(run: Option<Run>, tick: nat, c: Candidate): Run {
    var same := run.Some? && run.value.victimId == c.victimId && run.value.victimLife == c.victimLife
                && tick - run.value.lastTick <= 1;
    var ticks := if same then run.value.ticks else 0;
    Run(c.victimId, c.victimLife, if ticks < U32_MAX then ticks + 1 else U32_MAX, tick,
        if same then run.value.reported else None)
  }

  function Evaluation(rules: Rules, a: Attacker, tick: nat, candidate: Option<Candidate>): (Attacker, Verdict) {
    if CoolingDown(a, tick) || candidate.None? then (a.(run := None), NotYet)
    else
      var run := Continued(a.run, tick, candidate.value);
      var blocked := Blocked(rules, candidate.value);
      if run.ticks < rules.sustainedTicks then (a.(run := Some(run)), NotYet)
      else if blocked.None? then (a.(run := Some(run)), Eat)
      else if run.reported == blocked then (a.(run := Some(run)), NotYet)
      else (a.(run := Some(run.(reported := blocked))), Reject(blocked.value))
  }

  function Fed(rules: Rules, tick: nat): Attacker {
    Attacker(None, Some(tick + rules.cooldownTicks))
  }

  function Forgetting(a: Attacker, id: PlayerId, player: PlayerId): Attacker {
    if id == player then NEWCOMER
    else if a.run.Some? && a.run.value.victimId == player then a.(run := None)
    else a
  }

  class FillerEatPolicy {
    const rules: Rules
    var runs: map<PlayerId, Run>
    var cooldownUntil: map<PlayerId, nat>

    function StateOf(id: PlayerId): Attacker
      reads this
    {
      Attacker(if id in runs then Some(runs[id]) else None,
               if id in cooldownUntil then Some(cooldownUntil[id]) else None)
    }

    constructor (rules: Rules)
      ensures this.rules == rules && (forall id :: StateOf(id) == NEWCOMER)
    {
      this.rules := rules;
      runs, cooldownUntil := map[], map[];
    }

    method Evaluate(tick: nat, attacker: PlayerId, candidate: Option<Candidate>) returns (verdict: Verdict)
      modifies this`runs
      ensures (StateOf(attacker), verdict) == Evaluation(rules, old(StateOf(attacker)), tick, candidate)
      ensures forall id | id != attacker :: StateOf(id) == old(StateOf(id))
    {
      if attacker in cooldownUntil && tick < cooldownUntil[attacker] {
        runs := runs - {attacker};
        return NotYet;
      }
      if candidate.None? {
        runs := runs - {attacker};
        return NotYet;
      }
      var c := candidate.value;
      var run := if attacker in runs then runs[attacker] else Run(c.victimId, c.victimLife, 0, tick, None);
      if run.victimId != c.victimId || run.victimLife != c.victimLife || tick - run.lastTick > 1 {
        run := Run(c.victimId, c.victimLife, 0, run.lastTick, None);
      }
      run := run.(lastTick := tick, ticks := if run.ticks < U32_MAX then run.ticks + 1 else U32_MAX);
      runs := runs[attacker := run];
      if run.ticks < rules.sustainedTicks {
        return NotYet;
      }
      var blocked := Blocked(rules, c);
      if blocked.None? {
        return Eat;
      }
      if run.reported == blocked {
        return NotYet;
      }
      runs := runs[attacker := run.(reported := blocked)];
      return Reject(blocked.value);
    }

    method NoteEatApplied(tick: nat, attacker: PlayerId)
      modifies this
      ensures StateOf(attacker) == Fed(rules, tick)
      ensures forall id | id != attacker :: StateOf(id) == old(StateOf(id))
    {
      runs := runs - {attacker};
      cooldownUntil := cooldownUntil[attacker := tick + rules.cooldownTicks];
    }

    method ForgetPlayer(player: PlayerId)
      modifies this
      ensures forall id :: StateOf(id) == Forgetting(old(StateOf(id)), id, player)
    {
      var before := runs - {player};
      cooldownUntil := cooldownUntil - {player};
      var todo := before.Keys;
      var kept: map<PlayerId, Run> := map[];
      while todo != {}
        invariant todo <= before.Keys
        invariant kept == map id | id in before && id !in todo && before[id].victimId != player :: before[id]
        decreases todo
      {
        var id :| id in todo;
        if before[id].victimId != player {
          kept := kept[id := before[id]];
        }
        todo := todo - {id};
      }
      runs := kept;
    }
  }

  // ---- the history of one attacker ----

  datatype Event =
    | Evaluated(tick: nat, candidate: Option<Candidate>)
    | Applied(tick: nat)
    | ForgotSelf
    | ForgotOther(player: PlayerId)

  function Step(rules: Rules, a: Attacker, e: Event): Attacker {
    match e
    case Evaluated(tick, candidate) => Evaluation(rules, a, tick, candidate).0
    case Applied(tick) => Fed(rules, tick)
    case ForgotSelf => NEWCOMER
    case ForgotOther(player) => if a.run.Some? && a.run.value.victimId == player then a.(run := None) else a
  }

  /** A player who leaves is forgotten as an attacker and as a victim, and nobody else loses a run or a cooldown. */
  lemma ForgettingTakesBothRoles(rules: Rules, a: Attacker, id: PlayerId, player: PlayerId)
    ensures var b := Forgetting(a, id, player);
            && b == Step(rules, a, if id == player then ForgotSelf else ForgotOther(player))
            && (id == player ==> b.run.None? && b.cooldownUntil.None?)
            && (id != player ==> b.cooldownUntil == a.cooldownUntil)
            && (id != player ==> (b.run == a.run <==> a.run.None? || a.run.value.victimId != player))
            && (b.run.Some? ==> b.run.value.victimId != player)
  {
  }

  function After(rules: Rules, events: seq<Event>): Attacker {
    if events == [] then NEWCOMER else Step(rules, After(rules, events[..|events| - 1]), events[|events| - 1])
  }

  /** The verdict of the evaluation at position `i`. */
  function VerdictAt(rules: Rules, events: seq<Event>, i: nat): Verdict {
    if i < |events| && events[i].Evaluated?
    then Evaluation(rules, After(rules, events[..i]), events[i].tick, events[i].candidate).1
    else NotYet
  }

  /** The room's ticks only advance: one evaluation per tick, and an eat is applied in the tick of its verdict. */
  predicate Driven(rules: Rules, events: seq<Event>) {
    && (forall i, j | 0 <= i < j < |events| && events[i].Evaluated? && events[j].Evaluated? ::
          events[i].tick < events[j].tick)
    && (forall i | 0 <= i < |events| && events[i].Applied? :: AppliesVerdict(rules, events, i))
  }

  predicate AppliesVerdict(rules: Rules, events: seq<Event>, i: nat)
    requires i < |events| && events[i].Applied?
  {
    i > 0 && events[i - 1].Evaluated? && events[i - 1].tick == events[i].tick && VerdictAt(rules, events, i - 1) == Eat
  }

  lemma DrivenPrefix(rules: Rules, events: seq<Event>, n: nat)
    requires Driven(rules, events) && n <= |events|
    ensures Driven(rules, events[..n])
  {
    hide After, Evaluation;
    forall i | 0 <= i < n && events[..n][i].Applied?
      ensures AppliesVerdict(rules, events[..n], i)
    {
      assert AppliesVerdict(rules, events, i);
      assert events[..n][..i - 1] == events[..i - 1];
    }
  }

  // ---- an eat needs a sustained overlap with one life ----

  predicate OverlapAt(e: Event, tick: nat, victim: PlayerId, life: nat) {
    e.Evaluated? && e.tick == tick && e.candidate.Some?
    && e.candidate.value.victimId == victim && e.candidate.value.victimLife == life
  }

  predicate Overlapped(events: seq<Event>, tick: int, victim: PlayerId, life: nat) {
    tick >= 0 && exists e | e in events :: OverlapAt(e, tick, victim, life)
  }

  /** An overlap with this life on each of the `n` ticks up to `tick`. */
  predicate Sustained(events: seq<Event>, tick: int, n: nat, victim: PlayerId, life: nat) {
    forall t | tick - n < t <= tick :: Overlapped(events, t, victim, life)
  }

  /** The run stands for as many consecutive ticks of overlap, the last at `lastTick`. */
  predicate RunIsReal(events: seq<Event>, run: Run) {
    && 1 <= run.ticks <= run.lastTick + 1
    && Sustained(events, run.lastTick, run.ticks, run.victimId, run.victimLife)
  }

  predicate LastTickIs(events: seq<Event>, tick: nat) {
    forall e | e in events && e.Evaluated? :: e.tick <= tick
  }

  /** A step keeps the run, extends it by an overlap, or ends it. */
  lemma StepOfRun(rules: Rules, a: Attacker, e: Event)
    ensures var run := Step(rules, a, e).run;
            || run.None?
            || (!e.Evaluated? && run == a.run)
            || (e.Evaluated? && e.candidate.Some? && !CoolingDown(a, e.tick)
                && run == Some(Continued(a.run, e.tick, e.candidate.value).(reported := run.value.reported)))
  {
  }

  lemma {:induction false} RunsAreReal(rules: Rules, events: seq<Event>)
    requires Driven(rules, events)
    ensures var run := After(rules, events).run;
            run.Some? ==> RunIsReal(events, run.value) && LastTickIs(events, run.value.lastTick)
    decreases |events|
  {
    hide Driven, Step, Evaluation, Continued, RunIsReal, LastTickIs;
    if events != [] {
      var init, last := events[..|events| - 1], events[|events| - 1];
      DrivenPrefix(rules, events, |events| - 1);
      RunsAreReal(rules, init);
      assert events == init + [last];
      var before, after := After(rules, init).run, After(rules, events).run;
      StepOfRun(rules, After(rules, init), last);
      if after.Some? {
        if last.Evaluated? {
          LaterTick(rules, events);
          RunGrows(init, last, before);
          SameRun(events, Continued(before, last.tick, last.candidate.value), after.value);
        } else {
          RunStays(init, last, after.value);
        }
      }
    }
  }

  lemma SameRun(events: seq<Event>, run: Run, other: Run)
    requires RunIsReal(events, run) && LastTickIs(events, run.lastTick) && other == run.(reported := other.reported)
    ensures RunIsReal(events, other) && LastTickIs(events, other.lastTick)
  {
  }

  lemma LaterTick(rules: Rules, events: seq<Event>)
    requires Driven(rules, events) && events != [] && events[|events| - 1].Evaluated?
    ensures forall e | e in events[..|events| - 1] && e.Evaluated? :: e.tick < events[|events| - 1].tick
  {
  }

  lemma OverlappedStays(events: seq<Event>, e: Event, tick: int, victim: PlayerId, life: nat)
    requires Overlapped(events, tick, victim, life)
    ensures Overlapped(events + [e], tick, victim, life)
  {
  }

  lemma RunStays(events: seq<Event>, e: Event, run: Run)
    requires RunIsReal(events, run) && LastTickIs(events, run.lastTick) && !e.Evaluated?
    ensures RunIsReal(events + [e], run) && LastTickIs(events + [e], run.lastTick)
  {
    hide Overlapped;
    forall t | run.lastTick - run.ticks < t <= run.lastTick
      ensures Overlapped(events + [e], t, run.victimId, run.victimLife)
    {
      OverlappedStays(events, e, t, run.victimId, run.victimLife);
    }
  }

  lemma RunGrows(events: seq<Event>, e: Event, before: Option<Run>)
    requires before.Some? ==> RunIsReal(events, before.value) && LastTickIs(events, before.value.lastTick)
    requires e.Evaluated? && e.candidate.Some?
    requires forall e' | e' in events && e'.Evaluated? :: e'.tick < e.tick
    ensures RunIsReal(events + [e], Continued(before, e.tick, e.candidate.value))
    ensures LastTickIs(events + [e], Continued(before, e.tick, e.candidate.value).lastTick)
  {
    var c := e.candidate.value;
    var run := Continued(before, e.tick, c);
    if before.Some? {
      TickOfRun(events, before.value);
    }
    assert Overlapped(events + [e], e.tick, c.victimId, c.victimLife) by {
      assert OverlapAt(e, e.tick, c.victimId, c.victimLife) && e in events + [e];
    }
    hide Overlapped;
    forall t | run.lastTick - run.ticks < t <= run.lastTick
      ensures Overlapped(events + [e], t, c.victimId, c.victimLife)
    {
      if t < e.tick {
        OverlappedStays(events, e, t, c.victimId, c.victimLife);
      }
    }
  }

  lemma TickOfRun(events: seq<Event>, run: Run)
    requires RunIsReal(events, run)
    ensures exists e | e in events :: e.Evaluated? && e.tick == run.lastTick
  {
    assert Overlapped(events, run.lastTick, run.victimId, run.victimLife);
  }

  lemma VerdictOfRun(rules: Rules, a: Attacker, tick: nat, candidate: Option<Candidate>)
    requires Evaluation(rules, a, tick, candidate).1 != NotYet
    ensures candidate.Some? && Evaluation(rules, a, tick, candidate).0.run.Some?
    ensures var run := Evaluation(rules, a, tick, candidate).0.run.value;
            && run.victimId == candidate.value.victimId && run.victimLife == candidate.value.victimLife
            && run.lastTick == tick && run.ticks >= rules.Needed()
    ensures Evaluation(rules, a, tick, candidate).1 == Eat <==> Blocked(rules, candidate.value) == None
  {
  }

  /**
   A verdict of `Eat` or `Reject` comes only after an overlap with the same life of the same
   victim on each of the last `sustainedTicks` ticks; and `Eat` only when no gate blocks it.
   */
  lemma VerdictNeedsSustainedOverlap(rules: Rules, events: seq<Event>, i: nat)
    requires Driven(rules, events) && i < |events| && VerdictAt(rules, events, i) != NotYet
    ensures events[i].candidate.Some?
    ensures var c := events[i].candidate.value;
            && Sustained(events[..i + 1], events[i].tick, rules.Needed(), c.victimId, c.victimLife)
            && (VerdictAt(rules, events, i) == Eat <==> Blocked(rules, c) == None)
  {
    hide Driven, Evaluation, Overlapped, Blocked;
    DrivenPrefix(rules, events, i + 1);
    RunsAreReal(rules, events[..i + 1]);
    assert events[..i + 1][..i] == events[..i];
    VerdictOfRun(rules, After(rules, events[..i]), events[i].tick, events[i].candidate);
  }

  // ---- and a sustained overlap is enough ----

  /** Evaluations on `n` consecutive ticks, all overlapping one victim life. */
  predicate Glued(events: seq<Event>, from: nat, victim: PlayerId, life: nat) {
    forall i | 0 <= i < |events| :: OverlapAt(events[i], from + i, victim, life)
  }

  function Resumed(rules: Rules, a: Attacker, events: seq<Event>): Attacker {
    if events == [] then a else Step(rules, Resumed(rules, a, events[..|events| - 1]), events[|events| - 1])
  }

  lemma {:induction false} GluedRunGrows(rules: Rules, a: Attacker, events: seq<Event>, from: nat,
                                         victim: PlayerId, life: nat)
    requires Glued(events, from, victim, life) && events != [] && !CoolingDown(a, from)
    ensures var b := Resumed(rules, a, events);
            && b.cooldownUntil == a.cooldownUntil && b.run.Some?
            && b.run.value.victimId == victim && b.run.value.victimLife == life
            && b.run.value.lastTick == from + |events| - 1
            && (b.run.value.ticks >= |events| || b.run.value.ticks == U32_MAX)
    decreases |events|
  {
    var init, last := events[..|events| - 1], events[|events| - 1];
    assert OverlapAt(last, from + |events| - 1, victim, life);
    if init != [] {
      GluedRunGrows(rules, a, init, from, victim, life);
    } else {
      assert Resumed(rules, a, init) == a;
    }
  }

  /** From any state that is not cooling down, the eat fires no later than the last tick of a sustained overlap. */
  lemma SustainedOverlapEats(rules: Rules, a: Attacker, events: seq<Event>, from: nat, victim: PlayerId, life: nat)
    requires rules.Valid() && |events| == rules.Needed() && Glued(events, from, victim, life)
    requires !CoolingDown(a, from)
    requires OverlapAt(events[|events| - 1], from + |events| - 1, victim, life)
    requires Blocked(rules, events[|events| - 1].candidate.value) == None
    ensures var last := events[|events| - 1];
            Evaluation(rules, Resumed(rules, a, events[..|events| - 1]), last.tick, last.candidate).1 == Eat
  {
    GluedRunGrows(rules, a, events, from, victim, life);
    var init := events[..|events| - 1];
    if init != [] {
      GluedRunGrows(rules, a, init, from, victim, life);
    } else {
      assert Resumed(rules, a, init) == a;
    }
  }

  /** The cooldown after an eat ends on time: an attacker that keeps to one edible victim from then on eats again. */
  lemma EatsAgainAfterCooldown(rules: Rules, eatenAt: nat, events: seq<Event>, victim: PlayerId, life: nat)
    requires rules.Valid() && |events| == rules.Needed()
    requires Glued(events, eatenAt + rules.cooldownTicks, victim, life)
    requires OverlapAt(events[|events| - 1], eatenAt + rules.cooldownTicks + |events| - 1, victim, life)
    requires Blocked(rules, events[|events| - 1].candidate.value) == None
    ensures var last := events[|events| - 1];
            Evaluation(rules, Resumed(rules, Fed(rules, eatenAt), events[..|events| - 1]), last.tick, last.candidate).1
            == Eat
  {
    SustainedOverlapEats(rules, Fed(rules, eatenAt), events, eatenAt + rules.cooldownTicks, victim, life);
  }

  // ---- eats of one attacker are spaced ----

  /** Nothing that happened before `since` counts towards the next eat. */
  predicate CooledSince(a: Attacker, since: nat) {
    && a.cooldownUntil.Some? && a.cooldownUntil.value >= since
    && (a.run.Some? ==> a.run.value.lastTick + 1 >= since + a.run.value.ticks)
  }

  lemma AppliesInOrder(rules: Rules, events: seq<Event>, i: nat)
    requires Driven(rules, events) && i < |events| && events[i].Applied?
    ensures events[|events| - 1].Applied? ==> events[i].tick <= events[|events| - 1].tick
  {
  }

  lemma {:induction false} CooldownHolds(rules: Rules, events: seq<Event>, i: nat)
    requires Driven(rules, events) && i < |events| && events[i].Applied?
    requires forall k | i < k < |events| :: !events[k].ForgotSelf?
    ensures CooledSince(After(rules, events), events[i].tick + rules.cooldownTicks)
    decreases |events|
  {
    hide Driven, Evaluation, Sustained, LastTickIs;
    var init, last := events[..|events| - 1], events[|events| - 1];
    if i < |events| - 1 {
      AppliesInOrder(rules, events, i);
      DrivenPrefix(rules, events, |events| - 1);
      CooldownHolds(rules, init, i);
      RunsAreReal(rules, init);
      assert events == init + [last];
      StepKeepsCooled(rules, init, last, events[i].tick + rules.cooldownTicks, events);
    }
  }

  lemma StepKeepsCooled(rules: Rules, init: seq<Event>, last: Event, since: nat, events: seq<Event>)
    requires Driven(rules, events) && events == init + [last] && !last.ForgotSelf?
    requires CooledSince(After(rules, init), since)
    requires var run := After(rules, init).run; run.Some? ==> RunIsReal(init, run.value)
    requires last.Applied? ==> last.tick + rules.cooldownTicks >= since
    ensures CooledSince(Step(rules, After(rules, init), last), since)
  {
    var a := After(rules, init);
    if last.Evaluated? && a.run.Some? {
      LaterTick(rules, events);
      assert events[..|events| - 1] == init;
      TickOfRun(init, a.run.value);
    }
  }

  /**
   Two eats applied for one attacker, with the attacker not forgotten in between, are at
   least the cooldown and a whole new sustained overlap apart.
   */
  lemma EatsAreSpaced(rules: Rules, events: seq<Event>, i: nat, j: nat)
    requires rules.Valid() && Driven(rules, events) && i < j < |events| && events[i].Applied? && events[j].Applied?
    requires forall k | i < k < j :: !events[k].ForgotSelf?
    ensures events[j].tick >= events[i].tick + rules.cooldownTicks + rules.Needed() - 1
  {
    assert AppliesVerdict(rules, events, j);
    DrivenPrefix(rules, events, j);
    CooldownHolds(rules, events[..j], i);
    assert events[..j][..j - 1] == events[..j - 1];
    var run := After(rules, events[..j]).run.value;
    assert run.lastTick == events[j].tick && run.ticks >= rules.Needed() by {
      RunsAreReal(rules, events[..j]);
    }
  }

  // ---- which rejections are reported ----

  /** The reasons reported while a run lasts: each blocked tick whose reason differs from the last one reported. */
  function Reported(last: Option<Reason>, blocked: seq<Reason>): seq<Reason>
    decreases |blocked|
  {
    if blocked == [] then []
    else (if last == Some(blocked[0]) then [] else [blocked[0]]) + Reported(Some(blocked[0]), blocked[1..])
  }

  /** The rejections that a sequence of evaluations reports. */
  function Rejections(rules: Rules, a: Attacker, events: seq<Event>): seq<Reason>
    decreases |events|
  {
    if events == [] then []
    else
      var e := events[0];
      var rest := Rejections(rules, Step(rules, a, e), events[1..]);
      if e.Evaluated? && Evaluation(rules, a, e.tick, e.candidate).1.Reject?
      then [Evaluation(rules, a, e.tick, e.candidate).1.reason] + rest else rest
  }

  /** A run that continues from its threshold on, blocked on every tick for the given reasons. */
  predicate BlockedRun(rules: Rules, run: Run, events: seq<Event>, blocked: seq<Reason>) {
    && |events| == |blocked|
    && run.ticks + 1 >= rules.sustainedTicks
    && Glued(events, run.lastTick + 1, run.victimId, run.victimLife)
    && (forall i | 0 <= i < |events| :: BlockedAt(rules, events, blocked, i))
  }

  predicate BlockedAt(rules: Rules, events: seq<Event>, blocked: seq<Reason>, i: nat)
    requires i < |events| == |blocked|
  {
    events[i].Evaluated? && events[i].candidate.Some? && Blocked(rules, events[i].candidate.value) == Some(blocked[i])
  }

  lemma {:induction false} RejectionsAreReported(rules: Rules, a: Attacker, events: seq<Event>, blocked: seq<Reason>)
    requires rules.Valid() && a.run.Some? && !CoolingDown(a, a.run.value.lastTick)
    requires BlockedRun(rules, a.run.value, events, blocked)
    ensures Rejections(rules, a, events) == Reported(a.run.value.reported, blocked)
    decreases |events|
  {
    if events != [] {
      var run, e := a.run.value, events[0];
      assert OverlapAt(e, run.lastTick + 1 + 0, run.victimId, run.victimLife);
      assert BlockedAt(rules, events, blocked, 0);
      var next := Step(rules, a, e);
      forall i | 0 <= i < |events| - 1
        ensures OverlapAt(events[1..][i], next.run.value.lastTick + 1 + i, run.victimId, run.victimLife)
        ensures BlockedAt(rules, events[1..], blocked[1..], i)
      {
        assert OverlapAt(events[i + 1], run.lastTick + 1 + (i + 1), run.victimId, run.victimLife);
        assert BlockedAt(rules, events, blocked, i + 1);
      }
      RejectionsAreReported(rules, next, events[1..], blocked[1..]);
    }
  }

  /** No two successive reports carry the same reason. */
  lemma {:induction false} SuccessiveReportsDiffer(last: Option<Reason>, blocked: seq<Reason>)
    ensures forall i | 0 < i < |Reported(last, blocked)| :: Reported(last, blocked)[i - 1] != Reported(last, blocked)[i]
    ensures Reported(last, blocked) != [] ==> last != Some(Reported(last, blocked)[0])
    decreases |blocked|
  {
    if blocked != [] {
      SuccessiveReportsDiffer(Some(blocked[0]), blocked[1..]);
    }
  }

  predicate Distinct(reasons: seq<Reason>) {
    forall i, j | 0 <= i < j < |reasons| :: reasons[i] != reasons[j]
  }

  /** Each reason blocks during one stretch of ticks. */
  predicate Contiguous(blocked: seq<Reason>) {
    forall i, j, k | 0 <= i < j < k < |blocked| && blocked[i] == blocked[k] :: blocked[j] == blocked[i]
  }

  lemma {:induction false} ReportedMembers(last: Option<Reason>, blocked: seq<Reason>, r: Reason)
    requires last != Some(r)
    ensures r in Reported(last, blocked) <==> r in blocked
    decreases |blocked|
  {
    if blocked != [] && blocked[0] != r {
      ReportedMembers(Some(blocked[0]), blocked[1..], r);
    }
  }

  /** The reason that holds at first is reported again exactly when it returns after another one. */
  lemma {:induction false} ReturningReason(r: Reason, blocked: seq<Reason>)
    ensures r in Reported(Some(r), blocked) <==>
              exists j, k | 0 <= j < k < |blocked| :: blocked[j] != r && blocked[k] == r
    decreases |blocked|
  {
    if blocked != [] {
      var rest := blocked[1..];
      if blocked[0] == r {
        ReturningReason(r, rest);
        forall j, k | 0 <= j < k < |blocked| && blocked[j] != r && blocked[k] == r
          ensures rest[j - 1] != r && rest[k - 1] == r
        {
        }
        forall j, k | 0 <= j < k < |rest| && rest[j] != r && rest[k] == r
          ensures blocked[j + 1] != r && blocked[k + 1] == r
        {
        }
      } else {
        ReportedMembers(Some(blocked[0]), rest, r);
        if r in rest {
          var k :| 0 <= k < |rest| && rest[k] == r;
          assert blocked[0] != r && blocked[k + 1] == r;
        }
      }
    }
  }

  /** A run reports every reason at most once if and only if no blocking reason returns after another one. */
  lemma {:induction false} ReportedOnceIffContiguous(blocked: seq<Reason>)
    ensures Distinct(Reported(None, blocked)) <==> Contiguous(blocked)
    decreases |blocked|
  {
    if blocked != [] {
      var r, rest := blocked[0], blocked[1..];
      ReportedOnceIffContiguous(rest);
      ReturningReason(r, rest);
      TailReports(r, rest);
      ContiguousTail(blocked);
      assert Reported(None, blocked) == [r] + Reported(Some(r), rest);
      hide Distinct, Contiguous, Reported;
      DistinctFrom(r, Reported(Some(r), rest));
      assert [] + Reported(Some(r), rest) == Reported(Some(r), rest);
    }
  }

  lemma DistinctFrom(r: Reason, reasons: seq<Reason>)
    ensures Distinct([r] + reasons) <==> r !in reasons && Distinct(reasons)
  {
    var all := [r] + reasons;
    if Distinct(all) {
      forall i, j | 0 <= i < j < |reasons|
        ensures reasons[i] != reasons[j]
      {
        assert all[i + 1] == reasons[i] && all[j + 1] == reasons[j];
      }
      forall k | 0 <= k < |reasons|
        ensures reasons[k] != r
      {
        assert all[0] == r && all[k + 1] == reasons[k];
      }
    }
  }

  /** After a first report of `r`, the others are those of the tail, less a leading `r`. */
  lemma {:induction false} TailReports(r: Reason, rest: seq<Reason>)
    ensures Reported(None, rest) == (if rest != [] && rest[0] == r then [r] else []) + Reported(Some(r), rest)
  {
  }

  lemma ContiguousTail(blocked: seq<Reason>)
    requires blocked != []
    ensures Contiguous(blocked) <==>
              && Contiguous(blocked[1..])
              && !(exists j, k | 0 <= j < k < |blocked| - 1 ::
                     blocked[1..][j] != blocked[0] && blocked[1..][k] == blocked[0])
  {
  }

  /** A block that alternates is reported again and again: safe zone, shield, safe zone. */
  lemma AlternatingReasonIsReportedTwice()
    ensures Reported(None, [SafeZone, ResumeShield, SafeZone]) == [SafeZone, ResumeShield, SafeZone]
  {
  }
}
