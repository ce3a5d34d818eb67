/**
 What the resolver decides, said without its bounded memories: as long as the ledger keeps the ends
 of lives, a claim is judged as if every frame and every end ever recorded were at hand.
 */
module ClaimJudgement {
  import opened Wrappers
  import opened ContactHistories
  import opened ClaimLedgers
  import opened ClaimResolution

  /** A render tick whose frames are recorded and not yet older than the history. */
  predicate Recent(cfg: Config, w: World, tick: real) {
    CeilTick(tick) <= w.Now() < FloorTick(tick) + cfg.history
  }

  /** Both frames around the tick show the life. */
  predicate Seen(frames: seq<Lives>, tick: real, life: Life) {
    Shows(frames, FloorTick(tick), life) && Shows(frames, CeilTick(tick), life)
  }

  predicate PlayerSeen(cfg: Config, w: World, tick: real, life: Life) {
    Recent(cfg, w, tick) && Seen(PlayerFrames(w.log), tick, life)
  }

  predicate EnemySeen(cfg: Config, w: World, tick: real, life: Life) {
    Recent(cfg, w, tick) && Seen(EnemyFrames(w.log), tick, life)
  }

  /** Sampling the ring is seeing the life in the log, in a recent enough pair of frames. */
  lemma PlayerSampledIff(cfg: Config, w: World, id: EntityId, tick: real, life: nat)
    requires TicksFit(w.log)
    ensures var s := SampledPlayer(Latest(w.log, cfg.history), id, tick);
            s.Some? && s.value.life == life <==> PlayerSeen(cfg, w, tick, Life(id, life))
  {
    FloorBelowCeil(tick);
    if SampledPlayer(Latest(w.log, cfg.history), id, tick).Some? {
      PlayerSampleFrames(cfg, w, id, tick);
    }
    if PlayerSeen(cfg, w, tick, Life(id, life)) {
      FrameInRing(w.log, cfg.history, FloorTick(tick));
      FrameInRing(w.log, cfg.history, CeilTick(tick));
    }
    hide FloorTick, CeilTick, Latest, FrameAt;
  }

  lemma EnemySampledIff(cfg: Config, w: World, id: EntityId, generation: Option<nat>, tick: real, life: nat)
    requires TicksFit(w.log)
    ensures var s := SampledEnemy(Latest(w.log, cfg.history), id, generation, tick);
            s.Some? && s.value.life == life
            <==> EnemySeen(cfg, w, tick, Life(id, life)) && (generation.Some? ==> generation.value == life)
  {
    FloorBelowCeil(tick);
    if SampledEnemy(Latest(w.log, cfg.history), id, generation, tick).Some? {
      EnemySampleFrames(cfg, w, id, generation, tick);
    }
    if EnemySeen(cfg, w, tick, Life(id, life)) {
      FrameInRing(w.log, cfg.history, FloorTick(tick));
      FrameInRing(w.log, cfg.history, CeilTick(tick));
    }
    hide FloorTick, CeilTick, Latest, FrameAt;
  }

  /** Not in the future, and no later than the delay that claims may have. */
  predicate OnTime(cfg: Config, w: World, tick: real) {
    0.0 <= tick <= w.Now() as real <= tick + cfg.delay as real
  }

  /** This life of the player drew the claim: it was seen then, and nothing recorded says that it was over by then. */
  ghost predicate DrawnBy(cfg: Config, w: World, id: EntityId, tick: real, life: nat) {
    && OnTime(cfg, w, tick) && PlayerSeen(cfg, w, tick, Life(id, life))
    && !RecordedBefore(w.players.ledger, Life(id, life), tick)
  }

  lemma ClaimantIff(cfg: Config, w: World, id: EntityId, tick: real, life: nat)
    requires cfg.KeepsPlayerEnds() && WorldFits(cfg, w)
    ensures Claimant(cfg, w, id, tick) == Some(life) <==> DrawnBy(cfg, w, id, tick, life)
  {
    PlayerSampledIff(cfg, w, id, tick, life);
    if PlayerSeen(cfg, w, tick, Life(id, life)) && InTime(cfg, w.Now(), tick) {
      ClaimsAreRecent(cfg, w, id, tick);
      hide TrackFits, Exact, HappenedBefore, Ledger, RecordedBefore;
      PruningIsInvisible(cfg, w.players, PlayerFrames(w.log), CeilTick(tick), Life(id, life));
    }
    hide SampledPlayer, TrackFits;
  }

  ghost predicate DrawnBySomeLife(cfg: Config, w: World, id: EntityId, tick: real) {
    exists life: nat :: DrawnBy(cfg, w, id, tick, life)
  }

  lemma ClaimantIffDrawn(cfg: Config, w: World, id: EntityId, tick: real)
    requires cfg.KeepsPlayerEnds() && WorldFits(cfg, w)
    ensures Claimant(cfg, w, id, tick).Some? <==> DrawnBySomeLife(cfg, w, id, tick)
  {
    hide Claimant, DrawnBy, WorldFits;
    if Claimant(cfg, w, id, tick).Some? {
      ClaimantIff(cfg, w, id, tick, Claimant(cfg, w, id, tick).value);
    }
    if life: nat :| DrawnBy(cfg, w, id, tick, life) {
      ClaimantIff(cfg, w, id, tick, life);
    }
  }

  /**
   An eat of an enemy is accepted exactly when it was drawn in time by a life not over by then, and
   shows the enemy's current life, the one it names if it names one, past the grace after its birth.
   */
  lemma EnemyEatIsAcceptedIff(cfg: Config, w: World, op: Op)
    requires cfg.KeepsPlayerEnds() && WorldFits(cfg, w) && op.EatEnemy?
    ensures Accepts(cfg, w, op) <==>
              && op.allowed && DrawnBySomeLife(cfg, w, op.attacker, op.attackerTick)
              && op.enemy in w.enemies.current && op.enemy in w.bornAt
              && (op.generation.Some? ==> op.generation.value == w.enemies.current[op.enemy])
              && EnemySeen(cfg, w, op.targetTick, Life(op.enemy, w.enemies.current[op.enemy]))
              && w.bornAt[op.enemy] + cfg.grace < FloorTick(op.targetTick)
  {
    ClaimantIffDrawn(cfg, w, op.attacker, op.attackerTick);
    if Accepts(cfg, w, op) {
      EatConsumesCurrentLife(cfg, w, op);
    }
    if op.enemy in w.enemies.current {
      EnemySampledIff(cfg, w, op.enemy, op.generation, op.targetTick, w.enemies.current[op.enemy]);
    }
    hide Claimant, DrawnBySomeLife, EnemySeen, WorldFits, SampledEnemy;
  }

  /** An eat of a player is accepted exactly when it was drawn so and shows the victim's current life. */
  lemma PlayerEatIsAcceptedIff(cfg: Config, w: World, op: Op)
    requires cfg.KeepsPlayerEnds() && WorldFits(cfg, w) && op.EatPlayer?
    ensures Accepts(cfg, w, op) <==>
              && op.allowed && DrawnBySomeLife(cfg, w, op.attacker, op.attackerTick)
              && op.victim in w.players.current
              && PlayerSeen(cfg, w, op.targetTick, Life(op.victim, w.players.current[op.victim]))
  {
    ClaimantIffDrawn(cfg, w, op.attacker, op.attackerTick);
    if op.victim in w.players.current {
      PlayerSampledIff(cfg, w, op.victim, op.targetTick, w.players.current[op.victim]);
    }
    hide Claimant, DrawnBySomeLife, PlayerSeen, WorldFits, SampledPlayer;
  }

  /**
   A death is accepted exactly when it is in time and within the skew, shows the victim's current life
   and the enemy life it names, and nothing recorded says that this life was eaten before.
   */
  lemma DeathIsAcceptedIff(cfg: Config, w: World, op: Op)
    requires cfg.KeepsEnemyEnds() && WorldFits(cfg, w) && op.EnemyDeath?
    ensures var killer := Life(op.enemy, op.enemyGeneration);
            Accepts(cfg, w, op) <==>
              && op.allowed && OnTime(cfg, w, op.victimTick)
              && op.enemyTick <= op.victimTick <= op.enemyTick + cfg.skew as real
              && op.victim in w.players.current
              && PlayerSeen(cfg, w, op.victimTick, Life(op.victim, w.players.current[op.victim]))
              && EnemySeen(cfg, w, op.enemyTick, killer)
              && !RecordedBefore(w.enemies.ledger, killer, op.victimTick)
  {
    var killer := Life(op.enemy, op.enemyGeneration);
    EnemySampledIff(cfg, w, op.enemy, Some(op.enemyGeneration), op.enemyTick, op.enemyGeneration);
    if SampledEnemy(Latest(w.log, cfg.history), op.enemy, Some(op.enemyGeneration), op.enemyTick).Some? {
      EnemySampleFrames(cfg, w, op.enemy, Some(op.enemyGeneration), op.enemyTick);
    }
    if op.victim in w.players.current {
      PlayerSampledIff(cfg, w, op.victim, op.victimTick, w.players.current[op.victim]);
      if EnemySeen(cfg, w, op.enemyTick, killer) && InTime(cfg, w.Now(), op.victimTick)
         && op.enemyTick <= op.victimTick <= op.enemyTick + cfg.skew as real
         && PlayerSeen(cfg, w, op.victimTick, Life(op.victim, w.players.current[op.victim]))
      {
        ClaimsAreRecent(cfg, w, op.victim, op.victimTick);
        KillerIsExact(cfg, w, op.enemyTick, op.victimTick, killer);
      }
    }
    hide SampledEnemy, SampledPlayer, WorldFits, HappenedBefore, Ledger, RecordedBefore;
  }

  lemma KillerIsExact(cfg: Config, w: World, enemyTick: real, victimTick: real, killer: Life)
    requires cfg.KeepsEnemyEnds() && WorldFits(cfg, w) && EnemySeen(cfg, w, enemyTick, killer)
    requires w.Now() as real <= victimTick + cfg.Lateness() as real
    requires victimTick <= enemyTick + cfg.skew as real
    ensures Exact(w.enemies.ledger, killer)
  {
    hide TrackFits, Exact;
    FloorBelowCeil(enemyTick);
    PruningIsInvisible(cfg, w.enemies, EnemyFrames(w.log), CeilTick(enemyTick), killer);
  }
}
