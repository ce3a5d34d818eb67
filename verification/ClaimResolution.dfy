/**
 The claim resolver of a room over time: eat and death claims are checked against the
 bounded contact history and the pruned causal ledger, in whatever order and batch they
 become ready. The gates on scores, shields and geometry are one flag here, `allowed`.
 */
module ClaimResolution {
  import opened Wrappers
  import opened ClaimLedgers
  import opened ContactHistories

  /**
   `history` frames are kept; a claim may be `delay` ticks late; the ledger keeps `slack` ticks
   more than the history; a victim may be drawn `skew` ticks ahead of the enemy it blames.
   */
  datatype Config = Config(history: nat, delay: nat, slack: nat, grace: nat, skew: nat)
  {
    /** No accepted claim is older than this: it would be refused as late, or its frame would be gone. */
    function Lateness(): nat {
      if history == 0 then 0 else if delay < history then delay else history - 1
    }

    /** The end of an enemy's life stays in the ledger while a death by that life could still be accepted. */
    predicate KeepsEnemyEnds() {
      Lateness() <= slack + 1 || 2 * Lateness() + skew <= history + slack
    }

    /** The end of a player's life stays in the ledger while an eat by that life could still be accepted. */
    predicate KeepsPlayerEnds() {
      2 * Lateness() <= history + slack
    }
  }

  // ---- the lives of one kind of entity ----

  type Lives = map<EntityId, nat>

  /** The current life of each entity, every id ever used, and what was recorded and pruned. */
  datatype Track = Track(current: Lives, known: set<EntityId>, ledger: seq<Event>)
  {
    function Bump(id: EntityId): Track
      requires id in current
    {
      this.(current := current[id := current[id] + 1])
    }

    function Append(e: Event): Track {
      this.(ledger := ledger + [e])
    }

    /** The life of `id` ends at render tick `key`. */
    function End(id: EntityId, life: nat, key: real): Track
      requires id in current
    {
      Bump(id).Append(Record(Life(id, life), key))
    }
  }

  /** The lives seen in each frame; frame `k` is that of tick `k + 1`. */
  predicate FramesFit(t: Track, frames: seq<Lives>) {
    forall k, id | 0 <= k < |frames| && id in frames[k] ::
      id in t.known && (id in t.current ==> frames[k][id] <= t.current[id])
  }

  /** A life that was recorded as ended is over, and no frame much later than its end shows it. */
  predicate EndFits(t: Track, frames: seq<Lives>, lateness: nat, life: Life, key: real) {
    && life.id in t.known
    && (life.id in t.current ==> life.number < t.current[life.id])
    && (forall k | 0 <= k < |frames| && life.id in frames[k] && frames[k][life.id] <= life.number ::
          (k + 1) as real <= key + lateness as real)
  }

  predicate EndsFit(t: Track, frames: seq<Lives>, lateness: nat) {
    forall e | e in t.ledger && e.Record? :: EndFits(t, frames, lateness, e.life, e.tick)
  }

  predicate PrunesFit(t: Track, bound: real) {
    forall e | e in t.ledger && e.Prune? :: e.minTick <= bound
  }

  function PruneBound(cfg: Config, now: nat): real {
    now as real - (cfg.history + cfg.slack) as real
  }

  predicate TrackFits(cfg: Config, t: Track, frames: seq<Lives>) {
    && t.current.Keys <= t.known
    && FramesFit(t, frames)
    && EndsFit(t, frames, cfg.Lateness())
    && PrunesFit(t, PruneBound(cfg, |frames|))
  }

  predicate Shows(frames: seq<Lives>, tick: nat, life: Life) {
    1 <= tick <= |frames| && life.id in frames[tick - 1] && frames[tick - 1][life.id] == life.number
  }

  /**
   While a frame that shows a life is not too old, pruning has changed nothing about that life: the
   ledger answers as the whole log would.
   */
  lemma PruningIsInvisible(cfg: Config, t: Track, frames: seq<Lives>, tick: nat, life: Life)
    requires TrackFits(cfg, t, frames) && Shows(frames, tick, life)
    requires |frames| + cfg.Lateness() <= tick + cfg.history + cfg.slack
    ensures Exact(t.ledger, life)
  {
    forall i: nat, j: nat | RecordAt(t.ledger, life, i) && j < |t.ledger| && t.ledger[j].Prune?
      ensures t.ledger[j].minTick <= t.ledger[i].tick
    {
      assert t.ledger[i] in t.ledger && t.ledger[j] in t.ledger;
      assert EndFits(t, frames, cfg.Lateness(), life, t.ledger[i].tick);
    }
    RecentLivesAreExact(t.ledger, life);
  }

  lemma EndKeepsFit(cfg: Config, t: Track, frames: seq<Lives>, id: EntityId, key: real)
    requires TrackFits(cfg, t, frames) && id in t.current && |frames| as real <= key + cfg.Lateness() as real
    ensures TrackFits(cfg, t.End(id, t.current[id], key), frames)
  {
  }

  lemma BumpKeepsFit(cfg: Config, t: Track, frames: seq<Lives>, id: EntityId)
    requires TrackFits(cfg, t, frames) && id in t.current
    ensures TrackFits(cfg, t.Bump(id), frames)
  {
  }

  lemma FrameKeepsFit(cfg: Config, t: Track, frames: seq<Lives>)
    requires TrackFits(cfg, t, frames)
    ensures TrackFits(cfg, t.Append(Prune(PruneBound(cfg, |frames| + 1))), frames + [t.current])
  {
  }

  lemma JoinKeepsFit(cfg: Config, t: Track, frames: seq<Lives>, id: EntityId)
    requires TrackFits(cfg, t, frames) && id !in t.known
    ensures TrackFits(cfg, t.(current := t.current[id := 0], known := t.known + {id}), frames)
  {
  }

  lemma LeaveKeepsFit(cfg: Config, t: Track, frames: seq<Lives>, id: EntityId)
    requires TrackFits(cfg, t, frames)
    ensures TrackFits(cfg, t.(current := t.current - {id}), frames)
  {
  }

  // ---- the room ----

  /** `bornAt` is the tick at which each enemy's current life began. */
  datatype World = World(log: seq<Frame>, enemies: Track, bornAt: map<EntityId, nat>, players: Track)
  {
    function Now(): nat {
      |log|
    }
  }

  datatype Op =
    | NewTick(playersNow: map<EntityId, Sample<PlayerFlags>>, enemiesNow: map<EntityId, Sample<EnemyFlags>>)
    | EatEnemy(attacker: EntityId, enemy: EntityId, generation: Option<nat>,
               attackerTick: real, targetTick: real, allowed: bool)
    | EatPlayer(attacker: EntityId, victim: EntityId, attackerTick: real, targetTick: real, allowed: bool)
    | EnemyDeath(victim: EntityId, enemy: EntityId, enemyGeneration: nat,
                 victimTick: real, enemyTick: real, allowed: bool)
    | FillerEat(victim: EntityId)
    | ServerKill(victim: EntityId)
    | Join(player: EntityId)
    | Leave(player: EntityId)

  function LivesOf<F>(samples: map<EntityId, Sample<F>>): Lives {
    map id | id in samples :: samples[id].life
  }

  function EnemyFrames(log: seq<Frame>): (frames: seq<Lives>)
    ensures |frames| == |log| && (forall k | 0 <= k < |log| :: frames[k] == LivesOf(log[k].enemies))
  {
    seq(|log|, k requires 0 <= k < |log| => LivesOf(log[k].enemies))
  }

  function PlayerFrames(log: seq<Frame>): (frames: seq<Lives>)
    ensures |frames| == |log| && (forall k | 0 <= k < |log| :: frames[k] == LivesOf(log[k].players))
  {
    seq(|log|, k requires 0 <= k < |log| => LivesOf(log[k].players))
  }

  /** The frames match the world, player ids are never reused, and only players in the room are killed. */
  predicate Possible(w: World, op: Op) {
    match op
    case NewTick(players, enemies) => LivesOf(players) == w.players.current && LivesOf(enemies) == w.enemies.current
    case FillerEat(victim) => victim in w.players.current
    case ServerKill(victim) => victim in w.players.current
    case Join(player) => player !in w.players.known
    case _ => true
  }

  /** A claim is resolved once its later frame is recorded, and while it is not too old. */
  predicate InTime(cfg: Config, now: nat, tick: real) {
    tick >= 0.0 && CeilTick(tick) <= now && now as real - tick <= cfg.delay as real
  }

  /** The life in which the claimant drew its claim, unless the ledger knows that it was dead by then. */
  function Claimant(cfg: Config, w: World, attacker: EntityId, tick: real): Option<nat> {
    var s := SampledPlayer(Latest(w.log, cfg.history), attacker, tick);
    if InTime(cfg, w.Now(), tick) && s.Some?
       && !HappenedBefore(Ledger(w.players.ledger), Life(attacker, s.value.life), tick)
    then Some(s.value.life) else None
  }

  predicate Accepts(cfg: Config, w: World, op: Op) {
    var ring := Latest(w.log, cfg.history);
    match op
    case EatEnemy(attacker, enemy, generation, attackerTick, targetTick, allowed) =>
      && allowed && Claimant(cfg, w, attacker, attackerTick).Some?
      && SampledEnemy(ring, enemy, generation, targetTick).Some?
      && enemy in w.enemies.current && enemy in w.bornAt
      && (generation.Some? ==> generation.value == w.enemies.current[enemy])
      && FloorTick(targetTick) > w.bornAt[enemy] + cfg.grace
    case EatPlayer(attacker, victim, attackerTick, targetTick, allowed) =>
      && allowed && Claimant(cfg, w, attacker, attackerTick).Some?
      && victim in w.players.current
      && SampledPlayer(ring, victim, targetTick).Some?
      && SampledPlayer(ring, victim, targetTick).value.life == w.players.current[victim]
    case EnemyDeath(victim, enemy, generation, victimTick, enemyTick, allowed) =>
      && allowed && InTime(cfg, w.Now(), victimTick)
      && enemyTick <= victimTick <= enemyTick + cfg.skew as real
      && !HappenedBefore(Ledger(w.enemies.ledger), Life(enemy, generation), victimTick)
      && SampledEnemy(ring, enemy, Some(generation), enemyTick).Some?
      && victim in w.players.current
      && SampledPlayer(ring, victim, victimTick).Some?
      && SampledPlayer(ring, victim, victimTick).value.life == w.players.current[victim]
    case _ => true
  }

  /** The enemy life an accepted eat consumes: the one in the sampled frame. */
  function EatenLife(cfg: Config, w: World, op: Op): nat
    requires op.EatEnemy? && Accepts(cfg, w, op)
  {
    SampledEnemy(Latest(w.log, cfg.history), op.enemy, op.generation, op.targetTick).value.life
  }

  function Next(cfg: Config, w: World, op: Op): World
    requires Possible(w, op)
  {
    if !Accepts(cfg, w, op) then w
    else
      match op
      case NewTick(players, enemies) =>
        var now := w.Now() + 1;
        w.(log := w.log + [Frame(now, players, enemies)],
           enemies := w.enemies.Append(Prune(PruneBound(cfg, now))),
           players := w.players.Append(Prune(PruneBound(cfg, now))))
      case EatEnemy(_, enemy, _, attackerTick, _, _) =>
        w.(enemies := w.enemies.End(enemy, EatenLife(cfg, w, op), attackerTick),
           bornAt := w.bornAt[enemy := w.Now()])
      case EatPlayer(_, victim, attackerTick, _, _) =>
        w.(players := w.players.End(victim, w.players.current[victim], attackerTick))
      case EnemyDeath(victim, _, _, victimTick, _, _) =>
        w.(players := w.players.End(victim, w.players.current[victim], victimTick))
      case FillerEat(victim) =>
        w.(players := w.players.End(victim, w.players.current[victim], w.Now() as real))
      case ServerKill(victim) => w.(players := w.players.Bump(victim))
      case Join(player) =>
        w.(players := w.players.(current := w.players.current[player := 0], known := w.players.known + {player}))
      case Leave(player) => w.(players := w.players.(current := w.players.current - {player}))
  }

  // ---- what every step keeps ----

  predicate TicksFit(log: seq<Frame>) {
    forall k | 0 <= k < |log| :: log[k].tick == k + 1
  }

  /** Since its birth, an enemy's current life is the only one in the frames. */
  predicate BirthsFit(w: World) {
    forall k, id | 0 <= k < |w.log| && id in w.log[k].enemies && id in w.enemies.current && id in w.bornAt ::
      k + 1 > w.bornAt[id] ==> w.log[k].enemies[id].life == w.enemies.current[id]
  }

  predicate WorldFits(cfg: Config, w: World) {
    && TicksFit(w.log)
    && BirthsFit(w)
    && TrackFits(cfg, w.enemies, EnemyFrames(w.log))
    && TrackFits(cfg, w.players, PlayerFrames(w.log))
  }

  /** A frame found in the ring is one of the last `n` of the log. */
  lemma {:induction false} FoundInRing(log: seq<Frame>, n: nat, tick: nat)
    requires TicksFit(log) && FrameAt(Latest(log, n), tick).Some?
    ensures 1 <= tick <= |log| && |log| - n <= tick - 1
    ensures FrameAt(Latest(log, n), tick).value == log[tick - 1]
  {
    var ring := Latest(log, n);
    FrameAtFinds(ring, tick);
    var f := FrameAt(ring, tick).value;
    var i :| 0 <= i < |ring| && ring[i] == f;
    var k := if |log| <= n then i else |log| - n + i;
    assert log[k] == f;
  }

  /** And every one of those is found in it. */
  lemma FrameInRing(log: seq<Frame>, n: nat, tick: nat)
    requires TicksFit(log) && 1 <= tick <= |log| < tick + n
    ensures FrameAt(Latest(log, n), tick) == Some(log[tick - 1])
  {
    var ring := Latest(log, n);
    FrameAtFinds(ring, tick);
    assert log[tick - 1] == ring[if |log| <= n then tick - 1 else tick - 1 - (|log| - n)];
    FoundInRing(log, n, tick);
  }

  /** A player sample in the ring shows a life that the frames below and above it hold. */
  lemma PlayerSampleFrames(cfg: Config, w: World, id: EntityId, tick: real)
    requires TicksFit(w.log) && SampledPlayer(Latest(w.log, cfg.history), id, tick).Some?
    ensures var life := Life(id, SampledPlayer(Latest(w.log, cfg.history), id, tick).value.life);
            && w.Now() < FloorTick(tick) + cfg.history
            && Shows(PlayerFrames(w.log), FloorTick(tick), life) && Shows(PlayerFrames(w.log), CeilTick(tick), life)
  {
    var ring := Latest(w.log, cfg.history);
    SampleIsOneLife(PlayerAt(ring, id, FloorTick(tick)), PlayerAt(ring, id, CeilTick(tick)), None, tick);
    FoundInRing(w.log, cfg.history, FloorTick(tick));
    if CeilTick(tick) != FloorTick(tick) {
      FoundInRing(w.log, cfg.history, CeilTick(tick));
    }
  }

  lemma EnemySampleFrames(cfg: Config, w: World, id: EntityId, generation: Option<nat>, tick: real)
    requires TicksFit(w.log) && SampledEnemy(Latest(w.log, cfg.history), id, generation, tick).Some?
    ensures var life := Life(id, SampledEnemy(Latest(w.log, cfg.history), id, generation, tick).value.life);
            && w.Now() < FloorTick(tick) + cfg.history
            && Shows(EnemyFrames(w.log), FloorTick(tick), life) && Shows(EnemyFrames(w.log), CeilTick(tick), life)
            && (generation.Some? ==> life.number == generation.value)
  {
    var ring := Latest(w.log, cfg.history);
    SampleIsOneLife(EnemyAt(ring, id, FloorTick(tick)), EnemyAt(ring, id, CeilTick(tick)), generation, tick);
    FoundInRing(w.log, cfg.history, FloorTick(tick));
    if CeilTick(tick) != FloorTick(tick) {
      FoundInRing(w.log, cfg.history, CeilTick(tick));
    }
  }

  /** Whatever passes the age check and still has its frames is at most the lateness old. */
  lemma ClaimsAreRecent(cfg: Config, w: World, id: EntityId, tick: real)
    requires TicksFit(w.log) && InTime(cfg, w.Now(), tick)
    requires SampledPlayer(Latest(w.log, cfg.history), id, tick).Some?
    ensures w.Now() as real <= tick + cfg.Lateness() as real
  {
    PlayerSampleFrames(cfg, w, id, tick);
    hide Interpolated, PlayerAt, Latest;
  }

  /** An accepted eat always consumes the life that is current, named or not. */
  lemma EatConsumesCurrentLife(cfg: Config, w: World, op: Op)
    requires WorldFits(cfg, w) && op.EatEnemy? && Accepts(cfg, w, op)
    ensures EatenLife(cfg, w, op) == w.enemies.current[op.enemy]
  {
    EnemySampleFrames(cfg, w, op.enemy, op.generation, op.targetTick);
  }

  lemma NewTickKeepsFit(cfg: Config, w: World, op: Op)
    requires WorldFits(cfg, w) && Possible(w, op) && op.NewTick?
    ensures WorldFits(cfg, Next(cfg, w, op))
  {
    var w' := Next(cfg, w, op);
    FrameKeepsFit(cfg, w.enemies, EnemyFrames(w.log));
    FrameKeepsFit(cfg, w.players, PlayerFrames(w.log));
    hide TrackFits;
    assert EnemyFrames(w'.log) == EnemyFrames(w.log) + [w.enemies.current];
    assert PlayerFrames(w'.log) == PlayerFrames(w.log) + [w.players.current];
    forall id | id in op.enemiesNow && id in w.enemies.current
      ensures op.enemiesNow[id].life == w.enemies.current[id]
    {
      assert LivesOf(op.enemiesNow)[id] == op.enemiesNow[id].life;
    }
  }

  lemma EatEnemyKeepsFit(cfg: Config, w: World, op: Op)
    requires WorldFits(cfg, w) && op.EatEnemy? && Accepts(cfg, w, op)
    ensures WorldFits(cfg, Next(cfg, w, op))
  {
    EatConsumesCurrentLife(cfg, w, op);
    ClaimsAreRecent(cfg, w, op.attacker, op.attackerTick);
    EndKeepsFit(cfg, w.enemies, EnemyFrames(w.log), op.enemy, op.attackerTick);
    hide TrackFits;
  }

  lemma PlayerOpKeepsFit(cfg: Config, w: World, op: Op)
    requires WorldFits(cfg, w) && Possible(w, op) && Accepts(cfg, w, op) && !op.NewTick? && !op.EatEnemy?
    ensures WorldFits(cfg, Next(cfg, w, op))
  {
    var frames := PlayerFrames(w.log);
    match op
    case EatPlayer(attacker, victim, attackerTick, _, _) =>
      ClaimsAreRecent(cfg, w, attacker, attackerTick);
      EndKeepsFit(cfg, w.players, frames, victim, attackerTick);
    case EnemyDeath(victim, _, _, victimTick, _, _) =>
      ClaimsAreRecent(cfg, w, victim, victimTick);
      EndKeepsFit(cfg, w.players, frames, victim, victimTick);
    case FillerEat(victim) => EndKeepsFit(cfg, w.players, frames, victim, w.Now() as real);
    case ServerKill(victim) => BumpKeepsFit(cfg, w.players, frames, victim);
    case Join(player) => JoinKeepsFit(cfg, w.players, frames, player);
    case Leave(player) => LeaveKeepsFit(cfg, w.players, frames, player);
  }

  lemma NextKeepsFit(cfg: Config, w: World, op: Op)
    requires WorldFits(cfg, w) && Possible(w, op)
    ensures WorldFits(cfg, Next(cfg, w, op))
  {
    hide WorldFits;
    if Accepts(cfg, w, op) {
      if op.NewTick? {
        NewTickKeepsFit(cfg, w, op);
      } else if op.EatEnemy? {
        EatEnemyKeepsFit(cfg, w, op);
      } else {
        PlayerOpKeepsFit(cfg, w, op);
      }
    }
  }

  // ---- whole matches ----

  /** A room before its first tick: enemies in their first life, no frames, nothing recorded. */
  predicate Fresh(w: World) {
    && w.log == [] && w.enemies.ledger == [] && w.players.ledger == []
    && w.enemies.current.Keys <= w.enemies.known && w.players.current.Keys <= w.players.known
  }

  predicate StepsTo(cfg: Config, worlds: seq<World>, ops: seq<Op>, i: nat)
    requires |worlds| == |ops| + 1 && i < |ops|
  {
    Possible(worlds[i], ops[i]) && worlds[i + 1] == Next(cfg, worlds[i], ops[i])
  }

  predicate Match(cfg: Config, worlds: seq<World>, ops: seq<Op>) {
    && |worlds| == |ops| + 1 && Fresh(worlds[0])
    && (forall i | 0 <= i < |ops| :: StepsTo(cfg, worlds, ops, i))
  }

  lemma {:induction false} MatchesFit(cfg: Config, worlds: seq<World>, ops: seq<Op>, i: nat)
    requires Match(cfg, worlds, ops) && i < |worlds|
    ensures WorldFits(cfg, worlds[i])
  {
    if i > 0 {
      MatchesFit(cfg, worlds, ops, i - 1);
      assert StepsTo(cfg, worlds, ops, i - 1);
      hide Next, WorldFits;
      NextKeepsFit(cfg, worlds[i - 1], ops[i - 1]);
    }
  }

  lemma NextExtendsLedgers(cfg: Config, w: World, op: Op)
    requires Possible(w, op)
    ensures w.enemies.ledger <= Next(cfg, w, op).enemies.ledger && w.players.ledger <= Next(cfg, w, op).players.ledger
  {
  }

  lemma {:induction false} LedgersGrow(cfg: Config, worlds: seq<World>, ops: seq<Op>, i: nat, j: nat)
    requires Match(cfg, worlds, ops) && i <= j < |worlds|
    ensures worlds[i].enemies.ledger <= worlds[j].enemies.ledger
    ensures worlds[i].players.ledger <= worlds[j].players.ledger
    decreases j
  {
    hide Next;
    if i < j {
      LedgersGrow(cfg, worlds, ops, i, j - 1);
      assert StepsTo(cfg, worlds, ops, j - 1);
      NextExtendsLedgers(cfg, worlds[j - 1], ops[j - 1]);
    }
  }

  predicate AcceptedAt(cfg: Config, worlds: seq<World>, ops: seq<Op>, i: nat)
    requires |worlds| == |ops| + 1
  {
    i < |ops| && Accepts(cfg, worlds[i], ops[i])
  }

  /** An exact ledger that answers "not before" knows of no earlier end of this life. */
  lemma ExactLedgerRemembers(ledger: seq<Event>, life: Life, e: Event, tick: real)
    requires Exact(ledger, life) && e in ledger && e.Record? && e.life == life
    requires !HappenedBefore(Ledger(ledger), life, tick)
    ensures tick <= e.tick
  {
  }

  lemma EatIsRecorded(cfg: Config, worlds: seq<World>, ops: seq<Op>, i: nat, j: nat)
    requires Match(cfg, worlds, ops) && i < j < |worlds|
    requires AcceptedAt(cfg, worlds, ops, i) && ops[i].EatEnemy?
    ensures Record(Life(ops[i].enemy, EatenLife(cfg, worlds[i], ops[i])), ops[i].attackerTick)
              in worlds[j].enemies.ledger
  {
    var e := Record(Life(ops[i].enemy, EatenLife(cfg, worlds[i], ops[i])), ops[i].attackerTick);
    assert StepsTo(cfg, worlds, ops, i);
    assert worlds[i + 1].enemies.ledger == worlds[i].enemies.ledger + [e];
    hide Next, Accepts, EatenLife;
    LedgersGrow(cfg, worlds, ops, i + 1, j);
    assert e == worlds[j].enemies.ledger[|worlds[i].enemies.ledger|];
  }

  /** While a death by an enemy's life can be accepted, the check against the ledger is exact. */
  lemma DeathCheckIsExact(cfg: Config, w: World, op: Op)
    requires cfg.KeepsEnemyEnds() && WorldFits(cfg, w) && op.EnemyDeath? && Accepts(cfg, w, op)
    ensures Exact(w.enemies.ledger, Life(op.enemy, op.enemyGeneration))
  {
    EnemySampleFrames(cfg, w, op.enemy, Some(op.enemyGeneration), op.enemyTick);
    ClaimsAreRecent(cfg, w, op.victim, op.victimTick);
    hide TrackFits, Accepts;
    PruningIsInvisible(cfg, w.enemies, EnemyFrames(w.log), CeilTick(op.enemyTick), Life(op.enemy, op.enemyGeneration));
  }

  /** An eat of an enemy's life is accepted at `i`, and at `j` a death by that life at a later render tick. */
  predicate EatenThenKills(cfg: Config, worlds: seq<World>, ops: seq<Op>, i: nat, j: nat)
    requires |worlds| == |ops| + 1
  {
    && i < j && AcceptedAt(cfg, worlds, ops, i) && AcceptedAt(cfg, worlds, ops, j)
    && ops[i].EatEnemy? && ops[j].EnemyDeath? && ops[j].enemy == ops[i].enemy
    && ops[j].enemyGeneration == EatenLife(cfg, worlds[i], ops[i])
    && ops[i].attackerTick < ops[j].victimTick
  }

  /**
   An eaten enemy kills nobody afterwards: once an eat of an enemy life has been accepted,
   no death by that life at a later render tick is ever accepted, in this batch or any
   later one, although its frames are still in the history and the ledger is pruned.
   */
  lemma EatenEnemyCannotKillLater(cfg: Config, worlds: seq<World>, ops: seq<Op>, i: nat, j: nat)
    requires cfg.KeepsEnemyEnds() && Match(cfg, worlds, ops)
    ensures !EatenThenKills(cfg, worlds, ops, i, j)
  {
    if EatenThenKills(cfg, worlds, ops, i, j) {
      var w, op := worlds[j], ops[j];
      var life := Life(op.enemy, op.enemyGeneration);
      assert !HappenedBefore(Ledger(w.enemies.ledger), life, op.victimTick);
      hide Match, WorldFits, EatenLife, Exact, HappenedBefore, Ledger;
      MatchesFit(cfg, worlds, ops, j);
      DeathCheckIsExact(cfg, w, op);
      EatIsRecorded(cfg, worlds, ops, i, j);
      ExactLedgerRemembers(w.enemies.ledger, life, Record(life, ops[i].attackerTick), op.victimTick);
      assert false;
    }
  }

  // ---- the ends of players' lives ----

  /** What ends a life of the player `op.victim`; the server's own contact kill leaves no record in the ledger. */
  predicate Kills(op: Op) {
    op.EatPlayer? || op.EnemyDeath? || op.FillerEat? || op.ServerKill?
  }

  /** The render tick at which a life is ended: that of the claim, or now. */
  function KillKey(w: World, op: Op): real
    requires Kills(op)
  {
    if op.EatPlayer? then op.attackerTick else if op.EnemyDeath? then op.victimTick else w.Now() as real
  }

  /** The life is over, and no frame after `tick` shows it or an older one. */
  predicate Over(w: World, life: Life, tick: nat) {
    && life.id in w.players.known
    && (life.id in w.players.current ==> life.number < w.players.current[life.id])
    && (forall k | tick <= k < |w.log| && life.id in w.log[k].players :: life.number < w.log[k].players[life.id].life)
  }

  lemma OverStays(cfg: Config, w: World, op: Op, life: Life, tick: nat)
    requires Possible(w, op) && Over(w, life, tick)
    ensures Over(Next(cfg, w, op), life, tick)
  {
  }

  /** The life that the kill at `i` ended. */
  function KilledLife(worlds: seq<World>, ops: seq<Op>, i: nat): Life
    requires i < |ops| < |worlds| && Kills(ops[i]) && ops[i].victim in worlds[i].players.current
  {
    Life(ops[i].victim, worlds[i].players.current[ops[i].victim])
  }

  predicate KilledAt(cfg: Config, worlds: seq<World>, ops: seq<Op>, i: nat)
    requires |worlds| == |ops| + 1
  {
    AcceptedAt(cfg, worlds, ops, i) && Kills(ops[i]) && ops[i].victim in worlds[i].players.current
  }

  /** Whatever kills, it kills a player in the room. */
  lemma VictimsArePresent(cfg: Config, worlds: seq<World>, ops: seq<Op>, i: nat)
    requires Match(cfg, worlds, ops) && AcceptedAt(cfg, worlds, ops, i) && Kills(ops[i])
    ensures KilledAt(cfg, worlds, ops, i)
  {
    assert StepsTo(cfg, worlds, ops, i);
  }

  lemma {:induction false} KilledLifeIsOver(cfg: Config, worlds: seq<World>, ops: seq<Op>, i: nat, j: nat)
    requires Match(cfg, worlds, ops) && i < j < |worlds| && KilledAt(cfg, worlds, ops, i)
    ensures Over(worlds[j], KilledLife(worlds, ops, i), worlds[i].Now())
    decreases j
  {
    if i + 1 < j {
      hide Next, Over, AcceptedAt;
      KilledLifeIsOver(cfg, worlds, ops, i, j - 1);
      assert StepsTo(cfg, worlds, ops, j - 1);
      OverStays(cfg, worlds[j - 1], ops[j - 1], KilledLife(worlds, ops, i), worlds[i].Now());
    } else {
      MatchesFit(cfg, worlds, ops, i);
      assert StepsTo(cfg, worlds, ops, i);
    }
  }

  /** A player's life is killed at most once, by claims, fillers and the server together. */
  lemma PlayerLifeIsKilledOnce(cfg: Config, worlds: seq<World>, ops: seq<Op>, i: nat, j: nat)
    requires Match(cfg, worlds, ops) && i < j
    requires AcceptedAt(cfg, worlds, ops, i) && Kills(ops[i])
    requires AcceptedAt(cfg, worlds, ops, j) && Kills(ops[j]) && ops[j].victim == ops[i].victim
    ensures KilledAt(cfg, worlds, ops, i) && KilledAt(cfg, worlds, ops, j)
    ensures KilledLife(worlds, ops, j).number > KilledLife(worlds, ops, i).number
  {
    VictimsArePresent(cfg, worlds, ops, i);
    VictimsArePresent(cfg, worlds, ops, j);
    KilledLifeIsOver(cfg, worlds, ops, i, j);
  }

  lemma KillIsRecorded(cfg: Config, worlds: seq<World>, ops: seq<Op>, i: nat, j: nat)
    requires Match(cfg, worlds, ops) && i < j < |worlds| && KilledAt(cfg, worlds, ops, i) && !ops[i].ServerKill?
    ensures Record(KilledLife(worlds, ops, i), KillKey(worlds[i], ops[i])) in worlds[j].players.ledger
  {
    assert StepsTo(cfg, worlds, ops, i);
    var e := Record(KilledLife(worlds, ops, i), KillKey(worlds[i], ops[i]));
    assert worlds[i + 1].players.ledger == worlds[i].players.ledger + [e];
    hide Next, Accepts, KillKey;
    LedgersGrow(cfg, worlds, ops, i + 1, j);
    assert e == worlds[j].players.ledger[|worlds[i].players.ledger|];
  }

  /** While an eat can be accepted, the check that its claimant was not dead is exact. */
  lemma ClaimantCheckIsExact(cfg: Config, w: World, attacker: EntityId, tick: real)
    requires cfg.KeepsPlayerEnds() && WorldFits(cfg, w) && Claimant(cfg, w, attacker, tick).Some?
    ensures var life := Life(attacker, Claimant(cfg, w, attacker, tick).value);
            Exact(w.players.ledger, life) && !HappenedBefore(Ledger(w.players.ledger), life, tick)
  {
    PlayerSampleFrames(cfg, w, attacker, tick);
    ClaimsAreRecent(cfg, w, attacker, tick);
    hide TrackFits, Exact, HappenedBefore, Ledger;
    PruningIsInvisible(cfg, w.players, PlayerFrames(w.log), CeilTick(tick),
                       Life(attacker, Claimant(cfg, w, attacker, tick).value));
  }

  /** A player's life is ended at `i`, and at `j` an eat is accepted that this life drew after its end. */
  predicate KilledThenEats(cfg: Config, worlds: seq<World>, ops: seq<Op>, i: nat, j: nat)
    requires |worlds| == |ops| + 1
  {
    && i < j && KilledAt(cfg, worlds, ops, i) && AcceptedAt(cfg, worlds, ops, j)
    && (ops[j].EatEnemy? || ops[j].EatPlayer?) && ops[j].attacker == ops[i].victim
    && Claimant(cfg, worlds[j], ops[j].attacker, ops[j].attackerTick) == Some(KilledLife(worlds, ops, i).number)
    && KillKey(worlds[i], ops[i]) < ops[j].attackerTick
  }

  /** A life that a filler or the server ended now is in no later frame, whatever the ledger holds. */
  lemma LifeEndedNowCannotEat(cfg: Config, worlds: seq<World>, ops: seq<Op>, i: nat, j: nat)
    requires Match(cfg, worlds, ops) && (i < |ops| ==> ops[i].FillerEat? || ops[i].ServerKill?)
    ensures !KilledThenEats(cfg, worlds, ops, i, j)
  {
    if KilledThenEats(cfg, worlds, ops, i, j) {
      var w, tick := worlds[j], ops[j].attackerTick;
      MatchesFit(cfg, worlds, ops, j);
      KilledLifeIsOver(cfg, worlds, ops, i, j);
      PlayerSampleFrames(cfg, w, ops[j].attacker, tick);
      assert false;
    }
  }

  /**
   A dead player eats nobody afterwards: however a life ended, no eat that it drew after the
   tick of its end is ever accepted.
   */
  lemma DeadPlayerCannotEatLater(cfg: Config, worlds: seq<World>, ops: seq<Op>, i: nat, j: nat)
    requires cfg.KeepsPlayerEnds() && Match(cfg, worlds, ops)
    ensures !KilledThenEats(cfg, worlds, ops, i, j)
  {
    if KilledThenEats(cfg, worlds, ops, i, j) {
      var w, op := worlds[j], ops[j];
      var life := KilledLife(worlds, ops, i);
      hide Match, WorldFits, Accepts, Claimant, Exact, HappenedBefore, Ledger;
      if ops[i].ServerKill? {
        LifeEndedNowCannotEat(cfg, worlds, ops, i, j);
      } else {
        MatchesFit(cfg, worlds, ops, j);
        ClaimantCheckIsExact(cfg, w, op.attacker, op.attackerTick);
        KillIsRecorded(cfg, worlds, ops, i, j);
        ExactLedgerRemembers(w.players.ledger, life, Record(life, KillKey(worlds[i], ops[i])), op.attackerTick);
        assert false;
      }
    }
  }

  /** No enemy life is eaten twice, by whatever claims and with or without a named generation. */
  lemma EnemyLifeIsEatenOnce(cfg: Config, worlds: seq<World>, ops: seq<Op>, i: nat, j: nat)
    requires Match(cfg, worlds, ops) && i < j
    requires AcceptedAt(cfg, worlds, ops, i) && ops[i].EatEnemy?
    requires AcceptedAt(cfg, worlds, ops, j) && ops[j].EatEnemy? && ops[j].enemy == ops[i].enemy
    ensures EatenLife(cfg, worlds[j], ops[j]) > EatenLife(cfg, worlds[i], ops[i])
  {
    MatchesFit(cfg, worlds, ops, j);
    EatConsumesCurrentLife(cfg, worlds[j], ops[j]);
    EatIsRecorded(cfg, worlds, ops, i, j);
    hide EatenLife, Match, BirthsFit;
    var life := Life(ops[i].enemy, EatenLife(cfg, worlds[i], ops[i]));
    assert EndFits(worlds[j].enemies, EnemyFrames(worlds[j].log), cfg.Lateness(), life, ops[i].attackerTick);
  }
}
