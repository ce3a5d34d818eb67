/**
 Where the guarantees about claims end: for every configuration that does not keep the ends of
 lives long enough, a match in which an eaten enemy kills or a dead player eats; and when a claim
 that arrives later may still be the earlier one.
 */
module ClaimLimits {
  import opened Wrappers
  import opened GameMaps
  import opened ContactHistories
  import opened ClaimLedgers
  import opened ClaimResolution

  // ---- the order inside a batch ----

  predicate IsClaim(op: Op) {
    op.EatEnemy? || op.EatPlayer? || op.EnemyDeath?
  }

  /** The render tick that claims are sorted by. */
  function ClaimTick(op: Op): real
    requires IsClaim(op)
  {
    if op.EnemyDeath? then op.victimTick else op.attackerTick
  }

  /** The claims resolved between two ticks of the room are one batch, the oldest first. */
  predicate BatchesAreSorted(worlds: seq<World>, ops: seq<Op>)
    requires |worlds| == |ops| + 1
  {
    forall i, j | 0 <= i < j < |ops| && IsClaim(ops[i]) && IsClaim(ops[j]) && worlds[i].Now() == worlds[j].Now() ::
      ClaimTick(ops[i]) <= ClaimTick(ops[j])
  }

  // ---- building matches ----

  const ENEMY: EntityId := "enemy"
  const LEFT: EntityId := "left"
  const RIGHT: EntityId := "right"

  /** Two players and an enemy before the first tick. */
  function Start(): World {
    World([], Track(map[ENEMY := 0], {ENEMY}, []), map[ENEMY := 0],
          Track(map[LEFT := 0, RIGHT := 0], {LEFT, RIGHT}, []))
  }

  function Shown<F>(lives: Lives, flags: F): map<EntityId, Sample<F>> {
    map id | id in lives :: Sample(Position(0.0, 0.0), lives[id], flags)
  }

  /** A tick in which nobody moves. */
  function Tick(w: World): (op: Op)
    ensures op.NewTick? && Possible(w, op)
  {
    NewTick(Shown(w.players.current, PlayerFlags(Up, 0.0, 0, false, false, true)),
            Shown(w.enemies.current, EnemyFlags(Up, 0.0, 0, 0)))
  }

  predicate OnlyPruned(cfg: Config, before: Track, after: Track, now: nat, n: nat) {
    && after.current == before.current && after.known == before.known && before.ledger <= after.ledger
    && (forall k | |before.ledger| <= k < |after.ledger| :: after.ledger[k].Prune?)
    && (n > 0 ==> after.ledger != [] && after.ledger[|after.ledger| - 1] == Prune(PruneBound(cfg, now)))
  }

  predicate SameLives(w: World, frame: Frame) {
    LivesOf(frame.players) == w.players.current && LivesOf(frame.enemies) == w.enemies.current
  }

  /** Between the two worlds there were just `n` ticks. */
  predicate Waited(cfg: Config, w: World, w': World, n: nat) {
    && w'.Now() == w.Now() + n && w.log <= w'.log && w'.bornAt == w.bornAt
    && (forall k | w.Now() <= k < w'.Now() :: SameLives(w, w'.log[k]))
    && OnlyPruned(cfg, w.enemies, w'.enemies, w'.Now(), n)
    && OnlyPruned(cfg, w.players, w'.players, w'.Now(), n)
  }

  lemma TickWaits(cfg: Config, w: World, w': World, n: nat)
    requires Waited(cfg, w, w', n)
    ensures Waited(cfg, w, Next(cfg, w', Tick(w')), n + 1)
  {
  }

  lemma WaitedTime(cfg: Config, w: World, w': World, n: nat)
    requires Waited(cfg, w, w', n)
    ensures w'.Now() == w.Now() + n
  {
  }

  lemma ThenMatches(cfg: Config, worlds: seq<World>, ops: seq<Op>, op: Op)
    requires Match(cfg, worlds, ops) && Possible(worlds[|ops|], op)
    ensures Match(cfg, worlds + [Next(cfg, worlds[|ops|], op)], ops + [op])
  {
    var worlds', ops' := worlds + [Next(cfg, worlds[|ops|], op)], ops + [op];
    hide Next;
    forall i | 0 <= i < |ops'| ensures StepsTo(cfg, worlds', ops', i) {
      if i < |ops| {
        assert StepsTo(cfg, worlds, ops, i);
      }
    }
  }

  lemma {:induction false} WaitTicks(cfg: Config, worlds: seq<World>, ops: seq<Op>, n: nat)
    returns (worlds': seq<World>, ops': seq<Op>)
    requires Match(cfg, worlds, ops)
    ensures Match(cfg, worlds', ops') && |ops'| == |ops| + n && worlds <= worlds' && ops <= ops'
    ensures forall k | |ops| <= k < |ops'| :: ops'[k].NewTick?
    ensures Waited(cfg, worlds[|ops|], worlds'[|ops'|], n)
  {
    if n == 0 {
      worlds', ops' := worlds, ops;
    } else {
      worlds', ops' := WaitTicks(cfg, worlds, ops, n - 1);
      var w := worlds'[|ops'|];
      TickWaits(cfg, worlds[|ops|], w, n - 1);
      hide Next, Waited, Match, Possible;
      ThenMatches(cfg, worlds', ops', Tick(w));
      worlds', ops' := worlds' + [Next(cfg, w, Tick(w))], ops' + [Tick(w)];
    }
  }

  lemma ClaimKeepsLog(cfg: Config, w: World, op: Op)
    requires IsClaim(op)
    ensures Next(cfg, w, op).log == w.log
  {
  }

  lemma TwoBatchesAreSorted(worlds: seq<World>, ops: seq<Op>, i: nat, j: nat)
    requires |worlds| == |ops| + 1 && i < j < |ops| && worlds[i].Now() != worlds[j].Now()
    requires forall k | 0 <= k < |ops| && k != i && k != j :: ops[k].NewTick?
    ensures BatchesAreSorted(worlds, ops)
  {
  }

  /** A match with two claims: one after `n` ticks and one after `m` more. */
  lemma TwoClaims(cfg: Config, n: nat, first: Op, m: nat, second: Op)
    returns (worlds: seq<World>, ops: seq<Op>)
    requires IsClaim(first) && IsClaim(second) && m > 0
    ensures Match(cfg, worlds, ops) && |ops| == n + m + 2 && ops[n] == first && ops[n + m + 1] == second
    ensures BatchesAreSorted(worlds, ops)
    ensures Waited(cfg, Start(), worlds[n], n) && Waited(cfg, Next(cfg, worlds[n], first), worlds[n + m + 1], m)
  {
    worlds, ops := WaitTicks(cfg, [Start()], [], n);
    ThenMatches(cfg, worlds, ops, first);
    var next := Next(cfg, worlds[n], first);
    ClaimKeepsLog(cfg, worlds[n], first);
    var worlds1, ops1 := worlds + [next], ops + [first];
    hide Match, Next, Waited, Possible;
    var worlds2, ops2 := WaitTicks(cfg, worlds1, ops1, m);
    assert worlds1[n + 1] == next;
    ThenMatches(cfg, worlds2, ops2, second);
    worlds, ops := worlds2 + [Next(cfg, worlds2[n + m + 1], second)], ops2 + [second];
    WaitedTime(cfg, next, worlds[n + m + 1], m);
    hide BatchesAreSorted;
    TwoBatchesAreSorted(worlds, ops, n, n + m + 1);
  }

  // ---- what a claim finds ----

  lemma WholeTick(tick: nat)
    ensures FloorTick(tick as real) == tick && CeilTick(tick as real) == tick
  {
  }

  lemma PlayerIsSampled(log: seq<Frame>, n: nat, id: EntityId, tick: nat)
    requires TicksFit(log) && 1 <= tick <= |log| < tick + n && id in log[tick - 1].players
    ensures SampledPlayer(Latest(log, n), id, tick as real) == Some(log[tick - 1].players[id])
  {
    WholeTick(tick);
    hide FloorTick, CeilTick;
    FrameInRing(log, n, tick);
  }

  lemma EnemyIsSampled(log: seq<Frame>, n: nat, id: EntityId, generation: Option<nat>, tick: nat)
    requires TicksFit(log) && 1 <= tick <= |log| < tick + n && id in log[tick - 1].enemies
    requires generation.Some? ==> generation.value == log[tick - 1].enemies[id].life
    ensures SampledEnemy(Latest(log, n), id, generation, tick as real) == Some(log[tick - 1].enemies[id])
  {
    WholeTick(tick);
    hide FloorTick, CeilTick;
    FrameInRing(log, n, tick);
  }

  /** A life is not in the ledger if each of its records is below the bound of the last prune. */
  lemma NotHeld(ledger: seq<Event>, life: Life)
    requires forall i: nat | RecordAt(ledger, life, i) ::
               ledger[|ledger| - 1].Prune? && ledger[i].tick < ledger[|ledger| - 1].minTick
    ensures life !in Ledger(ledger)
  {
    if life in Ledger(ledger) {
      var i := EntryIsRecorded(ledger, life);
    }
  }

  predicate ShowsPlayer(w: World, id: EntityId, life: nat, tick: nat) {
    1 <= tick <= w.Now() && id in w.log[tick - 1].players && w.log[tick - 1].players[id].life == life
  }

  predicate ShowsEnemy(w: World, id: EntityId, life: nat, tick: nat) {
    1 <= tick <= w.Now() && id in w.log[tick - 1].enemies && w.log[tick - 1].enemies[id].life == life
  }

  /** Nothing in the ledger speaks of this life any more, or yet. */
  predicate Unheld(t: Track, life: Life) {
    life !in Ledger(t.ledger)
  }

  predicate Timely(cfg: Config, now: nat, tick: nat) {
    now <= tick + cfg.delay && now < tick + cfg.history
  }

  /** What makes a claimant of someone: a recent frame with a life that the ledger does not hold. */
  lemma IsClaimant(cfg: Config, w: World, id: EntityId, life: nat, tick: nat)
    requires TicksFit(w.log) && Timely(cfg, w.Now(), tick) && ShowsPlayer(w, id, life, tick)
    requires Unheld(w.players, Life(id, life))
    ensures Claimant(cfg, w, id, tick as real) == Some(life)
  {
    PlayerIsSampled(w.log, cfg.history, id, tick);
    WholeTick(tick);
    hide SampledPlayer, FloorTick, CeilTick, Ledger;
  }

  lemma DeathIsAccepted(cfg: Config, w: World, victim: EntityId, enemy: EntityId, victimTick: nat, enemyTick: nat)
    requires TicksFit(w.log) && Timely(cfg, w.Now(), victimTick) && w.Now() < enemyTick + cfg.history
    requires enemyTick <= victimTick <= enemyTick + cfg.skew
    requires ShowsPlayer(w, victim, 0, victimTick) && victim in w.players.current && w.players.current[victim] == 0
    requires ShowsEnemy(w, enemy, 0, enemyTick) && Unheld(w.enemies, Life(enemy, 0))
    ensures Accepts(cfg, w, EnemyDeath(victim, enemy, 0, victimTick as real, enemyTick as real, true))
  {
    PlayerIsSampled(w.log, cfg.history, victim, victimTick);
    EnemyIsSampled(w.log, cfg.history, enemy, Some(0), enemyTick);
    WholeTick(victimTick);
    hide SampledPlayer, SampledEnemy, FloorTick, CeilTick, Ledger;
  }

  lemma EnemyEatIsAccepted(cfg: Config, w: World, attacker: EntityId, enemy: EntityId, tick: nat)
    requires TicksFit(w.log) && Timely(cfg, w.Now(), tick)
    requires ShowsPlayer(w, attacker, 0, tick) && Unheld(w.players, Life(attacker, 0))
    requires ShowsEnemy(w, enemy, 0, tick) && enemy in w.enemies.current && w.enemies.current[enemy] == 0
    requires enemy in w.bornAt && w.bornAt[enemy] + cfg.grace < tick
    ensures var op := EatEnemy(attacker, enemy, Some(0), tick as real, tick as real, true);
            Accepts(cfg, w, op) && EatenLife(cfg, w, op) == 0
  {
    IsClaimant(cfg, w, attacker, 0, tick);
    EnemyIsSampled(w.log, cfg.history, enemy, Some(0), tick);
    WholeTick(tick);
    hide Claimant, SampledEnemy, FloorTick, CeilTick, Ledger;
  }

  lemma PlayerEatIsAccepted(cfg: Config, w: World, attacker: EntityId, victim: EntityId, tick: nat)
    requires TicksFit(w.log) && Timely(cfg, w.Now(), tick)
    requires ShowsPlayer(w, attacker, 0, tick) && Unheld(w.players, Life(attacker, 0))
    requires ShowsPlayer(w, victim, 0, tick) && victim in w.players.current && w.players.current[victim] == 0
    ensures Accepts(cfg, w, EatPlayer(attacker, victim, tick as real, tick as real, true))
  {
    IsClaimant(cfg, w, attacker, 0, tick);
    PlayerIsSampled(w.log, cfg.history, victim, tick);
    WholeTick(tick);
    hide Claimant, SampledPlayer, FloorTick, CeilTick, Ledger;
  }

  /** Before the first claim, everyone is in the first life and the ledger is empty. */
  lemma NothingHappenedYet(cfg: Config, w: World, n: nat, tick: nat)
    requires Waited(cfg, Start(), w, n) && 1 <= tick <= n
    ensures w.players.current == Start().players.current && w.enemies.current == Start().enemies.current
    ensures ShowsPlayer(w, LEFT, 0, tick) && ShowsPlayer(w, RIGHT, 0, tick) && ShowsEnemy(w, ENEMY, 0, tick)
    ensures forall id :: Unheld(w.players, Life(id, 0)) && Unheld(w.enemies, Life(id, 0))
  {
    assert SameLives(Start(), w.log[tick - 1]);
    assert LEFT in LivesOf(w.log[tick - 1].players) && RIGHT in LivesOf(w.log[tick - 1].players);
    assert ENEMY in LivesOf(w.log[tick - 1].enemies);
    forall id ensures Unheld(w.players, Life(id, 0)) && Unheld(w.enemies, Life(id, 0)) {
      NotHeld(w.players.ledger, Life(id, 0));
      NotHeld(w.enemies.ledger, Life(id, 0));
    }
  }

  // ---- an eaten enemy kills ----

  /** The first eat possible after the grace, resolved as late as can be. */
  function EarlyEat(cfg: Config): Op {
    EatEnemy(LEFT, ENEMY, Some(0), (cfg.grace + 1) as real, (cfg.grace + 1) as real, true)
  }

  lemma EarlyEatIsAccepted(cfg: Config, w: World)
    requires cfg.Lateness() > 0 && Waited(cfg, Start(), w, cfg.grace + 1 + cfg.Lateness()) && TicksFit(w.log)
    ensures Accepts(cfg, w, EarlyEat(cfg)) && EatenLife(cfg, w, EarlyEat(cfg)) == 0
  {
    NothingHappenedYet(cfg, w, cfg.grace + 1 + cfg.Lateness(), cfg.grace + 1);
    assert w.Now() == cfg.grace + 1 + cfg.Lateness() && w.bornAt == Start().bornAt;
    hide Waited, Accepts, EatenLife, Unheld;
    EnemyEatIsAccepted(cfg, w, LEFT, ENEMY, cfg.grace + 1);
  }

  /** The latest death that blames the eaten life: drawn against its last frame, or as late as the victim may be. */
  function LateDeath(cfg: Config): Op {
    var last := cfg.grace + 1 + cfg.Lateness();
    var oldest := cfg.grace + 2 + cfg.history + cfg.slack - cfg.Lateness();
    EnemyDeath(RIGHT, ENEMY, 0, (if oldest < last then last else oldest) as real, last as real, true)
  }

  /** A match up to the moment at which the ledger has just pruned the eaten life. */
  predicate EatIsForgotten(cfg: Config, eaten: World, w: World) {
    && TicksFit(eaten.log) && TicksFit(w.log) && cfg.Lateness() <= cfg.history + cfg.slack
    && Waited(cfg, Start(), eaten, cfg.grace + 1 + cfg.Lateness())
    && Accepts(cfg, eaten, EarlyEat(cfg)) && EatenLife(cfg, eaten, EarlyEat(cfg)) == 0
    && Waited(cfg, Next(cfg, eaten, EarlyEat(cfg)), w, cfg.history + cfg.slack + 1 - cfg.Lateness())
  }

  lemma EatenLifeIsNotHeld(cfg: Config, eaten: World, w: World)
    requires EatIsForgotten(cfg, eaten, w)
    ensures Life(ENEMY, 0) !in Ledger(w.enemies.ledger)
  {
    var next := Next(cfg, eaten, EarlyEat(cfg));
    assert next.log == eaten.log;
    assert next.enemies.ledger == eaten.enemies.ledger + [Record(Life(ENEMY, 0), (cfg.grace + 1) as real)];
    hide Next, Accepts, EatenLife;
    NotHeld(w.enemies.ledger, Life(ENEMY, 0));
  }

  /** The players are seen in every frame, the enemy's first life in those before the eat. */
  lemma ForgottenEatIsShown(cfg: Config, eaten: World, w: World, tick: nat)
    requires EatIsForgotten(cfg, eaten, w) && 1 <= tick <= w.Now()
    ensures ShowsPlayer(w, RIGHT, 0, tick) && RIGHT in w.players.current && w.players.current[RIGHT] == 0
    ensures tick <= cfg.grace + 1 + cfg.Lateness() ==> ShowsEnemy(w, ENEMY, 0, tick)
  {
    var next := Next(cfg, eaten, EarlyEat(cfg));
    assert next.log == eaten.log && next.players == eaten.players;
    hide Next, Accepts, EatenLife;
    if tick <= eaten.Now() {
      assert SameLives(Start(), eaten.log[tick - 1]) && w.log[tick - 1] == eaten.log[tick - 1];
      assert ENEMY in LivesOf(w.log[tick - 1].enemies);
    } else {
      assert SameLives(next, w.log[tick - 1]);
    }
    assert RIGHT in LivesOf(w.log[tick - 1].players);
  }

  lemma ForgottenAt(cfg: Config, eaten: World, w: World)
    requires EatIsForgotten(cfg, eaten, w)
    ensures TicksFit(w.log) && w.Now() == cfg.grace + 2 + cfg.history + cfg.slack
  {
  }

  lemma LateDeathIsAccepted(cfg: Config, eaten: World, w: World)
    requires !cfg.KeepsEnemyEnds() && EatIsForgotten(cfg, eaten, w)
    ensures Accepts(cfg, w, LateDeath(cfg))
  {
    hide EatIsForgotten, Accepts, Ledger, ShowsPlayer, ShowsEnemy, TicksFit;
    var last, oldest := cfg.grace + 1 + cfg.Lateness(), cfg.grace + 2 + cfg.history + cfg.slack - cfg.Lateness();
    var victimTick := if oldest < last then last else oldest;
    ForgottenAt(cfg, eaten, w);
    ForgottenEatIsShown(cfg, eaten, w, last);
    ForgottenEatIsShown(cfg, eaten, w, victimTick);
    EatenLifeIsNotHeld(cfg, eaten, w);
    DeathIsAccepted(cfg, w, RIGHT, ENEMY, victimTick, last);
  }

  lemma SomeEatenEnemyKills(cfg: Config) returns (worlds: seq<World>, ops: seq<Op>, i: nat, j: nat)
    requires !cfg.KeepsEnemyEnds()
    ensures Match(cfg, worlds, ops) && BatchesAreSorted(worlds, ops) && EatenThenKills(cfg, worlds, ops, i, j)
  {
    hide BatchesAreSorted, Waited, Accepts, EatenLife, Next;
    i := cfg.grace + 1 + cfg.Lateness();
    var m := cfg.history + cfg.slack + 1 - cfg.Lateness();
    j := i + m + 1;
    worlds, ops := TwoClaims(cfg, i, EarlyEat(cfg), m, LateDeath(cfg));
    MatchesFit(cfg, worlds, ops, i);
    MatchesFit(cfg, worlds, ops, j);
    EarlyEatIsAccepted(cfg, worlds[i]);
    LateDeathIsAccepted(cfg, worlds[i], worlds[j]);
  }

  /** No match lets an eaten enemy kill. */
  ghost predicate EatenEnemiesStayDead(cfg: Config) {
    forall worlds, ops, i, j | Match(cfg, worlds, ops) :: !EatenThenKills(cfg, worlds, ops, i, j)
  }

  /**
   Eaten enemies stay dead in every match if and only if the ledger keeps the ends of their lives
   long enough for the lateness and the skew that claims may have. Otherwise they kill in some
   match even with every batch in order.
   */
  lemma EatenEnemiesStayDeadIff(cfg: Config)
    ensures EatenEnemiesStayDead(cfg) <==> cfg.KeepsEnemyEnds()
  {
    hide EatenThenKills;
    if cfg.KeepsEnemyEnds() {
      forall worlds, ops, i, j | Match(cfg, worlds, ops) ensures !EatenThenKills(cfg, worlds, ops, i, j) {
        EatenEnemyCannotKillLater(cfg, worlds, ops, i, j);
      }
    } else {
      var worlds, ops, i, j := SomeEatenEnemyKills(cfg);
    }
  }

  // ---- a dead player eats ----

  function EarlyKill(): Op {
    EatPlayer(RIGHT, LEFT, 1.0, 1.0, true)
  }

  /** The last eat that the killed life could have drawn. */
  function LateEat(cfg: Config): Op {
    var last := 1 + cfg.Lateness();
    EatPlayer(LEFT, RIGHT, last as real, last as real, true)
  }

  lemma EarlyKillIsAccepted(cfg: Config, w: World)
    requires cfg.Lateness() > 0 && Waited(cfg, Start(), w, 1 + cfg.Lateness()) && TicksFit(w.log)
    ensures Accepts(cfg, w, EarlyKill()) && LEFT in w.players.current && w.players.current[LEFT] == 0
  {
    NothingHappenedYet(cfg, w, 1 + cfg.Lateness(), 1);
    assert w.Now() == 1 + cfg.Lateness();
    hide Waited, Accepts, Unheld;
    PlayerEatIsAccepted(cfg, w, RIGHT, LEFT, 1);
  }

  /** A match up to the moment at which the ledger has just pruned the killed life. */
  predicate KillIsForgotten(cfg: Config, killed: World, w: World) {
    && TicksFit(killed.log) && TicksFit(w.log) && 0 < cfg.Lateness() <= cfg.history + cfg.slack
    && Waited(cfg, Start(), killed, 1 + cfg.Lateness()) && Accepts(cfg, killed, EarlyKill())
    && LEFT in killed.players.current && killed.players.current[LEFT] == 0
    && Waited(cfg, Next(cfg, killed, EarlyKill()), w, cfg.history + cfg.slack + 1 - cfg.Lateness())
  }

  lemma KilledLifeIsNotHeld(cfg: Config, killed: World, w: World)
    requires KillIsForgotten(cfg, killed, w)
    ensures Unheld(w.players, Life(LEFT, 0))
  {
    var next := Next(cfg, killed, EarlyKill());
    assert next.log == killed.log;
    assert next.players.ledger == killed.players.ledger + [Record(Life(LEFT, 0), 1.0)];
    hide Next, Accepts;
    NotHeld(w.players.ledger, Life(LEFT, 0));
  }

  /** Its last frame still shows the killed life, and the other player lives on. */
  lemma ForgottenKillIsShown(cfg: Config, killed: World, w: World)
    requires KillIsForgotten(cfg, killed, w)
    ensures w.Now() == cfg.history + cfg.slack + 2
    ensures ShowsPlayer(w, LEFT, 0, 1 + cfg.Lateness()) && ShowsPlayer(w, RIGHT, 0, 1 + cfg.Lateness())
    ensures RIGHT in w.players.current && w.players.current[RIGHT] == 0
  {
    var next := Next(cfg, killed, EarlyKill());
    assert next.log == killed.log && next.players.current == killed.players.current[LEFT := 1];
    assert w.log[cfg.Lateness()] == killed.log[cfg.Lateness()];
    NothingHappenedYet(cfg, killed, 1 + cfg.Lateness(), 1 + cfg.Lateness());
    hide Next, Accepts, SameLives, Unheld;
  }

  lemma SomeDeadPlayerEats(cfg: Config) returns (worlds: seq<World>, ops: seq<Op>, i: nat, j: nat)
    requires !cfg.KeepsPlayerEnds()
    ensures Match(cfg, worlds, ops) && BatchesAreSorted(worlds, ops) && KilledThenEats(cfg, worlds, ops, i, j)
  {
    hide BatchesAreSorted, Waited, Accepts, Next, Unheld, ShowsPlayer, Claimant;
    i := 1 + cfg.Lateness();
    var m := cfg.history + cfg.slack + 1 - cfg.Lateness();
    j := i + m + 1;
    worlds, ops := TwoClaims(cfg, i, EarlyKill(), m, LateEat(cfg));
    MatchesFit(cfg, worlds, ops, i);
    MatchesFit(cfg, worlds, ops, j);
    hide Match;
    EarlyKillIsAccepted(cfg, worlds[i]);
    ForgottenKillIsShown(cfg, worlds[i], worlds[j]);
    KilledLifeIsNotHeld(cfg, worlds[i], worlds[j]);
    PlayerEatIsAccepted(cfg, worlds[j], LEFT, RIGHT, 1 + cfg.Lateness());
    IsClaimant(cfg, worlds[j], LEFT, 0, 1 + cfg.Lateness());
  }

  /** No match lets a life eat that was over before. */
  ghost predicate DeadPlayersEatNobody(cfg: Config) {
    forall worlds, ops, i, j | Match(cfg, worlds, ops) :: !KilledThenEats(cfg, worlds, ops, i, j)
  }

  /**
   Dead players eat nobody in every match if and only if the ledger keeps the ends of their lives
   for twice the lateness; otherwise some dead player eats even with every batch in order.
   */
  lemma DeadPlayersEatNobodyIff(cfg: Config)
    ensures DeadPlayersEatNobody(cfg) <==> cfg.KeepsPlayerEnds()
  {
    hide KilledThenEats;
    if cfg.KeepsPlayerEnds() {
      forall worlds, ops, i, j | Match(cfg, worlds, ops) ensures !KilledThenEats(cfg, worlds, ops, i, j) {
        DeadPlayerCannotEatLater(cfg, worlds, ops, i, j);
      }
    } else {
      var worlds, ops, i, j := SomeDeadPlayerEats(cfg);
    }
  }

  // ---- the order of arrival ----

  /** A recorded end takes a claimant away exactly when it is that life's and before the claim. */
  lemma EndStopsClaimant(cfg: Config, w: World, life: Life, key: real, attacker: EntityId, tick: real)
    requires Claimant(cfg, w, attacker, tick).Some? && life.id in w.players.current
    ensures Claimant(cfg, w.(players := w.players.End(life.id, life.number, key)), attacker, tick).Some? <==>
              !(key < tick && Life(attacker, Claimant(cfg, w, attacker, tick).value) == life)
  {
  }

  lemma DeathEndsLife(cfg: Config, w: World, death: Op)
    requires death.EnemyDeath? && Accepts(cfg, w, death)
    ensures death.victim in w.players.current
    ensures var life := w.players.current[death.victim];
            Next(cfg, w, death) == w.(players := w.players.End(death.victim, life, death.victimTick))
  {
  }

  /**
   An accepted death takes one thing away from an eat of an enemy: the victim's own eat, drawn by
   the life that died and after it died. Any other eat is accepted after the death as it was before.
   */
  lemma DeathStopsOnlyTheVictimsEats(cfg: Config, w: World, death: Op, eat: Op)
    requires death.EnemyDeath? && Accepts(cfg, w, death) && eat.EatEnemy? && Accepts(cfg, w, eat)
    ensures death.victim in w.players.current
    ensures Accepts(cfg, Next(cfg, w, death), eat) <==>
              !(&& eat.attacker == death.victim && death.victimTick < eat.attackerTick
                && Claimant(cfg, w, eat.attacker, eat.attackerTick) == Some(w.players.current[death.victim]))
  {
    DeathEndsLife(cfg, w, death);
    var life := Life(death.victim, w.players.current[death.victim]);
    hide Next, Claimant, SampledPlayer, SampledEnemy, HappenedBefore, Ledger, InTime;
    EndStopsClaimant(cfg, w, life, death.victimTick, eat.attacker, eat.attackerTick);
  }

  /** A death by an enemy's life is accepted at `i`, and at `j` an eat of that life at an earlier render tick. */
  predicate KillsThenEaten(cfg: Config, worlds: seq<World>, ops: seq<Op>, i: nat, j: nat)
    requires |worlds| == |ops| + 1
  {
    && i < j && AcceptedAt(cfg, worlds, ops, i) && AcceptedAt(cfg, worlds, ops, j)
    && ops[i].EnemyDeath? && ops[j].EatEnemy? && ops[j].enemy == ops[i].enemy
    && ops[i].enemyGeneration == EatenLife(cfg, worlds[j], ops[j])
    && ops[j].attackerTick < ops[i].victimTick
  }

  lemma {:induction false} TimeGoesOn(cfg: Config, worlds: seq<World>, ops: seq<Op>, i: nat, j: nat)
    requires Match(cfg, worlds, ops) && i <= j < |worlds|
    ensures worlds[i].Now() <= worlds[j].Now()
    decreases j
  {
    if i < j {
      TimeGoesOn(cfg, worlds, ops, i, j - 1);
      assert StepsTo(cfg, worlds, ops, j - 1);
    }
  }

  lemma FastClaimsAreInOrder(cfg: Config, worlds: seq<World>, ops: seq<Op>, i: nat, j: nat)
    requires cfg.Lateness() <= 1 && Match(cfg, worlds, ops) && BatchesAreSorted(worlds, ops)
    ensures !KillsThenEaten(cfg, worlds, ops, i, j)
  {
    if KillsThenEaten(cfg, worlds, ops, i, j) {
      hide Next, EatenLife, SampledPlayer, SampledEnemy, Ledger;
      TimeGoesOn(cfg, worlds, ops, i, j);
      MatchesFit(cfg, worlds, ops, j);
      ClaimsAreRecent(cfg, worlds[j], ops[j].attacker, ops[j].attackerTick);
      assert false;
    }
  }

  function EarlyDeath(cfg: Config): Op {
    EnemyDeath(RIGHT, ENEMY, 0, (cfg.grace + 2) as real, (cfg.grace + 2) as real, true)
  }

  lemma EarlyDeathIsAccepted(cfg: Config, w: World)
    requires cfg.Lateness() > 0 && Waited(cfg, Start(), w, cfg.grace + 2) && TicksFit(w.log)
    ensures Accepts(cfg, w, EarlyDeath(cfg))
  {
    NothingHappenedYet(cfg, w, cfg.grace + 2, cfg.grace + 2);
    assert w.Now() == cfg.grace + 2;
    hide Waited, Accepts, Unheld;
    DeathIsAccepted(cfg, w, RIGHT, ENEMY, cfg.grace + 2, cfg.grace + 2);
  }

  /** The other player still has the same frames, and the ledger knows nothing of that player or the enemy. */
  lemma DeathLeavesTheOthers(cfg: Config, dead: World, w: World)
    requires Waited(cfg, Start(), dead, cfg.grace + 2) && Accepts(cfg, dead, EarlyDeath(cfg))
    requires Waited(cfg, Next(cfg, dead, EarlyDeath(cfg)), w, 1)
    ensures w.Now() == cfg.grace + 3 && w.bornAt == Start().bornAt && w.enemies.current == Start().enemies.current
    ensures ShowsPlayer(w, LEFT, 0, cfg.grace + 1) && ShowsEnemy(w, ENEMY, 0, cfg.grace + 1)
    ensures Unheld(w.players, Life(LEFT, 0))
  {
    var next := Next(cfg, dead, EarlyDeath(cfg));
    NothingHappenedYet(cfg, dead, cfg.grace + 2, cfg.grace + 1);
    assert next.players.ledger == dead.players.ledger + [Record(Life(RIGHT, 0), (cfg.grace + 2) as real)];
    assert next.log == dead.log && next.enemies == dead.enemies && next.bornAt == dead.bornAt;
    hide Next, Accepts, SameLives;
    assert w.log[cfg.grace] == dead.log[cfg.grace];
    NotHeld(w.players.ledger, Life(LEFT, 0));
  }

  lemma SomeKillerIsEatenEarlier(cfg: Config) returns (worlds: seq<World>, ops: seq<Op>, i: nat, j: nat)
    requires cfg.Lateness() >= 2
    ensures Match(cfg, worlds, ops) && BatchesAreSorted(worlds, ops) && KillsThenEaten(cfg, worlds, ops, i, j)
  {
    hide BatchesAreSorted, Waited, Accepts, Next, Unheld, ShowsPlayer, ShowsEnemy, EatenLife;
    i, j := cfg.grace + 2, cfg.grace + 4;
    worlds, ops := TwoClaims(cfg, i, EarlyDeath(cfg), 1, EarlyEat(cfg));
    MatchesFit(cfg, worlds, ops, i);
    MatchesFit(cfg, worlds, ops, j);
    hide Match;
    EarlyDeathIsAccepted(cfg, worlds[i]);
    DeathLeavesTheOthers(cfg, worlds[i], worlds[j]);
    EnemyEatIsAccepted(cfg, worlds[j], LEFT, ENEMY, cfg.grace + 1);
  }

  /** No match whose batches are sorted accepts a death and then an eat of the killer drawn before it. */
  ghost predicate ClaimsStayInOrder(cfg: Config) {
    forall worlds, ops, i, j | Match(cfg, worlds, ops) && BatchesAreSorted(worlds, ops) ::
      !KillsThenEaten(cfg, worlds, ops, i, j)
  }

  /**
   Sorting the batches orders all claims by their ticks only if none can be more than one tick late.
   With a lateness of two ticks there is a match in which an enemy kills and is then eaten, by
   another player, at an earlier tick.
   */
  lemma ClaimsStayInOrderIff(cfg: Config)
    ensures ClaimsStayInOrder(cfg) <==> cfg.Lateness() <= 1
  {
    hide KillsThenEaten, BatchesAreSorted;
    if cfg.Lateness() <= 1 {
      forall worlds, ops, i, j | Match(cfg, worlds, ops) && BatchesAreSorted(worlds, ops)
        ensures !KillsThenEaten(cfg, worlds, ops, i, j)
      {
        FastClaimsAreInOrder(cfg, worlds, ops, i, j);
      }
    } else {
      var worlds, ops, i, j := SomeKillerIsEatenEarlier(cfg);
    }
  }
}
