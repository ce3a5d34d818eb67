/** The gates on shape, position and overlap of the two claim policies, over real distances. */
module ClaimGeometry {
  import opened Wrappers
  import opened GameMaps
  import opened RealArithmetic

  datatype Fairness = Fairness(visibleRadius: real, slack: real, positionTolerance: real, distanceTolerance: real,
                               maxViewSkew: real, respawnGrace: nat)
  {
    function ReconstructRadius(): real {
      visibleRadius + slack
    }
  }

  datatype Unit = Unit

  datatype Refusal =
    | VisualTooFar | VictimBehindEnemy | SkewTooLarge | TargetAheadOfAttacker | VisualMismatch | ReportedTooFar
    | VictimNotAliveNow | VictimProtectedNow | VictimNotAliveAtClaim | VictimProtected | VictimInvincible
    | InSafeZone | EnemyNotBigger | ReconstructedTooFar
    | VictimMismatch | EnemyMismatch | AttackerNotAlive | AttackerMismatch | TargetMismatch
    | GenerationMismatch | AlreadyRespawned | RespawnGrace | CannotEatEnemy
    | VictimNotAvailable | VictimProtectedAtTarget | CannotEatPlayer

  type Verdict = Result<Unit, Refusal>

  // ---- the death policy ----

  function Shape(cfg: Fairness, visual: real, victimTick: real, enemyTick: real, maxSkew: real): Verdict {
    if !(0.0 <= visual <= cfg.visibleRadius) then Err(VisualTooFar)
    else if victimTick < enemyTick then Err(VictimBehindEnemy)
    else if victimTick - enemyTick > maxSkew then Err(SkewTooLarge)
    else Ok(Unit)
  }

  function PositionsConsistent(cfg: Fairness, reported: real, visual: real): Verdict {
    if Abs(reported - visual) > cfg.distanceTolerance then Err(VisualMismatch)
    else if reported > cfg.visibleRadius then Err(ReportedTooFar)
    else Ok(Unit)
  }

  predicate WithinPositionTolerance(cfg: Fairness, dist: real) {
    dist <= cfg.positionTolerance
  }

  datatype DeathRules = DeathRules(
    victimNowAlive: bool, victimNowProtected: bool, victimHistAlive: bool, victimHistProtected: bool,
    victimHistInvincible: bool, inSafeZone: bool, enemyScore: nat, victimScore: nat)
  {
    predicate Lethal() {
      victimNowAlive && !victimNowProtected && victimHistAlive && !victimHistProtected && !victimHistInvincible
      && !inSafeZone && enemyScore > victimScore
    }
  }

  function ValidateDeath(cfg: Fairness, r: DeathRules, reconstructed: real): Verdict {
    if !r.victimNowAlive then Err(VictimNotAliveNow)
    else if r.victimNowProtected then Err(VictimProtectedNow)
    else if !r.victimHistAlive then Err(VictimNotAliveAtClaim)
    else if r.victimHistProtected then Err(VictimProtected)
    else if r.victimHistInvincible then Err(VictimInvincible)
    else if r.inSafeZone then Err(InSafeZone)
    else if r.enemyScore <= r.victimScore then Err(EnemyNotBigger)
    else if reconstructed > cfg.ReconstructRadius() then Err(ReconstructedTooFar)
    else Ok(Unit)
  }

  // ---- the eat policy ----

  predicate CanEat(invincible: bool, attackerScore: nat, targetScore: nat) {
    invincible || attackerScore > targetScore
  }

  /** Unlike the death policy, this one does not refuse a negative visual distance. */
  function EatShape(cfg: Fairness, visual: real, attackerTick: real, targetTick: real): Verdict {
    if visual > cfg.visibleRadius then Err(VisualTooFar)
    else if attackerTick < targetTick then Err(TargetAheadOfAttacker)
    else if attackerTick - targetTick > cfg.maxViewSkew then Err(SkewTooLarge)
    else Ok(Unit)
  }

  function AttackerEligible(cfg: Fairness, alive: bool, dist: real): Verdict {
    if !alive then Err(AttackerNotAlive)
    else if !WithinPositionTolerance(cfg, dist) then Err(AttackerMismatch)
    else Ok(Unit)
  }

  datatype EnemyEatRules = EnemyEatRules(
    respawnedAt: nat, targetFloor: nat, attackerInvincible: bool, attackerScore: nat, enemyScore: nat,
    claimedGeneration: Option<nat>, currentGeneration: nat)
  {
    predicate Edible(cfg: Fairness) {
      && (claimedGeneration.Some? ==> claimedGeneration.value == currentGeneration)
      && targetFloor > respawnedAt + cfg.respawnGrace
      && CanEat(attackerInvincible, attackerScore, enemyScore)
    }
  }

  function EnemyEat(cfg: Fairness, r: EnemyEatRules, reconstructed: real): Verdict {
    if r.claimedGeneration.Some? && r.claimedGeneration.value != r.currentGeneration then Err(GenerationMismatch)
    else if r.respawnedAt > r.targetFloor then Err(AlreadyRespawned)
    else if r.targetFloor <= r.respawnedAt + cfg.respawnGrace then Err(RespawnGrace)
    else if !CanEat(r.attackerInvincible, r.attackerScore, r.enemyScore) then Err(CannotEatEnemy)
    else if reconstructed > cfg.ReconstructRadius() then Err(ReconstructedTooFar)
    else Ok(Unit)
  }

  datatype PlayerEatRules = PlayerEatRules(
    victimNowAlive: bool, victimNowProtected: bool, victimHistAlive: bool, victimHistProtected: bool,
    victimHistInvincible: bool, inSafeZone: bool, attackerInvincible: bool, attackerScore: nat, victimScore: nat)
  {
    predicate Edible() {
      victimNowAlive && !victimNowProtected && victimHistAlive && !victimHistProtected && !victimHistInvincible
      && !inSafeZone && CanEat(attackerInvincible, attackerScore, victimScore)
    }
  }

  function PlayerEat(cfg: Fairness, r: PlayerEatRules, reconstructed: real): Verdict {
    if !r.victimNowAlive || r.victimNowProtected then Err(VictimNotAvailable)
    else if !r.victimHistAlive || r.victimHistProtected || r.victimHistInvincible then Err(VictimProtectedAtTarget)
    else if r.inSafeZone then Err(InSafeZone)
    else if !CanEat(r.attackerInvincible, r.attackerScore, r.victimScore) then Err(CannotEatPlayer)
    else if reconstructed > cfg.ReconstructRadius() then Err(ReconstructedTooFar)
    else Ok(Unit)
  }

  // ---- distances, through their squares ----

  /** `d` is the Euclidean distance of the two points. */
  predicate IsDistance(d: real, p: Position, q: Position) {
    d >= 0.0 && Square(d) == SquaredDistance(p, q)
  }

  lemma SquareOfProduct(x: real, y: real, product: real)
    requires product == x * y
    ensures Square(product) == Square(x) * Square(y)
  {
  }

  function Dot(ux: real, uy: real, vx: real, vy: real): real {
    ux * vx + uy * vy
  }

  function Cross(ux: real, uy: real, vx: real, vy: real): real {
    ux * vy - uy * vx
  }

  /** The identity behind the Cauchy-Schwarz inequality in the plane. */
  lemma DotAndCross(ux: real, uy: real, vx: real, vy: real)
    ensures Square(Dot(ux, uy, vx, vy)) + Square(Cross(ux, uy, vx, vy))
         == (Square(ux) + Square(uy)) * (Square(vx) + Square(vy))
  {
  }

  lemma DotAtMostProduct(ux: real, uy: real, vx: real, vy: real, a: real, b: real, ab: real)
    requires a >= 0.0 && b >= 0.0 && ab == a * b && ab >= 0.0
    requires Square(a) == Square(ux) + Square(uy) && Square(b) == Square(vx) + Square(vy)
    ensures Dot(ux, uy, vx, vy) <= ab
  {
    var dot := Dot(ux, uy, vx, vy);
    DotAndCross(ux, uy, vx, vy);
    SquareNotNegative(Cross(ux, uy, vx, vy));
    SquareOfProduct(a, b, ab);
    hide Square, Dot, Cross;
    if dot > ab {
      SquareGrows(ab, dot);
    }
  }

  lemma SquareOfVectorSum(ux: real, uy: real, vx: real, vy: real, wx: real, wy: real)
    ensures Square(ux + vx + wx) + Square(uy + vy + wy)
         == Square(ux) + Square(uy) + (Square(vx) + Square(vy)) + (Square(wx) + Square(wy))
            + 2.0 * (Dot(ux, uy, vx, vy) + Dot(vx, vy, wx, wy) + Dot(ux, uy, wx, wy))
  {
  }

  lemma SquareOfSum(x: real, y: real, z: real)
    ensures Square(x + y + z) == Square(x) + Square(y) + Square(z) + 2.0 * (x * y + y * z + x * z)
  {
  }

  /** The triangle inequality for three steps in the plane: `r` is at most the length of the way round. */
  lemma WayRoundIsLonger(p: Position, p': Position, q': Position, q: Position, a: real, d: real, b: real, r: real)
    requires IsDistance(a, p, p') && IsDistance(d, p', q') && IsDistance(b, q', q) && IsDistance(r, p, q)
    ensures r <= a + d + b
  {
    var ux, uy, vx, vy, wx, wy := p.x - p'.x, p.y - p'.y, p'.x - q'.x, p'.y - q'.y, q'.x - q.x, q'.y - q.y;
    var ad, db, ab := a * d, d * b, a * b;
    ProductNotNegative(a, d, ad);
    ProductNotNegative(d, b, db);
    ProductNotNegative(a, b, ab);
    SquareOfSum(a, d, b);
    SquareOfVectorSum(ux, uy, vx, vy, wx, wy);
    DotAtMostProduct(ux, uy, vx, vy, a, d, ad);
    DotAtMostProduct(vx, vy, wx, wy, d, b, db);
    DotAtMostProduct(ux, uy, wx, wy, a, b, ab);
    hide Square, Dot;
    assert ux + vx + wx == p.x - q.x && uy + vy + wy == p.y - q.y;
    if r > a + d + b {
      SquareGrows(a + d + b, r);
    }
  }

  /**
   Two entities and what a claim reports of them: `a` and `b` are the errors of the reported
   positions, `d` the distance between these, `r` the reconstructed distance.
   */
  datatype Report = Report(p: Position, q: Position, p': Position, q': Position, a: real, b: real, d: real, r: real)
  {
    predicate Valid() {
      IsDistance(a, p, p') && IsDistance(b, q', q) && IsDistance(d, p', q') && IsDistance(r, p, q)
    }
  }

  /** Both positions are reported to within half the slack, and their distance is a visible overlap. */
  predicate Honest(cfg: Fairness, report: Report) {
    && report.Valid()
    && report.a <= cfg.slack / 2.0 && report.b <= cfg.slack / 2.0 && report.d <= cfg.visibleRadius
  }

  /** The overlap gate cannot refuse an honest claim: each policy then decides on its other rules alone. */
  lemma HonestClaimsOverlap(cfg: Fairness, report: Report, death: DeathRules, enemy: EnemyEatRules,
                            player: PlayerEatRules)
    requires Honest(cfg, report)
    ensures report.r <= cfg.ReconstructRadius()
    ensures ValidateDeath(cfg, death, report.r).Ok? <==> death.Lethal()
    ensures EnemyEat(cfg, enemy, report.r).Ok? <==> enemy.Edible(cfg)
    ensures PlayerEat(cfg, player, report.r).Ok? <==> player.Edible()
  {
    WayRoundIsLonger(report.p, report.p', report.q', report.q, report.a, report.d, report.b, report.r);
    hide IsDistance;
  }

  /** On a line, the errors add up in full. */
  function OnALine(e: real, d: real): Report {
    Report(Position(0.0, 0.0), Position(d + 2.0 * e, 0.0), Position(e, 0.0), Position(e + d, 0.0), e, e, d, d + 2.0 * e)
  }

  lemma LineIsValid(e: real, d: real)
    requires e >= 0.0 && d >= 0.0
    ensures OnALine(e, d).Valid()
  {
  }

  /** The slack is exactly what honest errors can use up: on a line, half of it on each side reaches the radius. */
  lemma SlackIsUsedUp(cfg: Fairness)
    requires cfg.visibleRadius >= 0.0 && cfg.slack >= 0.0
    ensures var report := OnALine(cfg.slack / 2.0, cfg.visibleRadius);
            Honest(cfg, report) && report.r == cfg.ReconstructRadius()
  {
  }

  /** A claim that the checks on its reported positions let through. */
  predicate PassesPositionChecks(cfg: Fairness, report: Report, visual: real) {
    && report.Valid()
    && PositionsConsistent(cfg, report.d, visual).Ok?
    && WithinPositionTolerance(cfg, report.a) && WithinPositionTolerance(cfg, report.b)
  }

  /** No claim that passes the position checks is refused for its reconstructed distance. */
  ghost predicate OverlapGateIsRedundant(cfg: Fairness) {
    forall report, visual | PassesPositionChecks(cfg, report, visual) :: report.r <= cfg.ReconstructRadius()
  }

  /**
   The position checks imply the reconstructed overlap if and only if the tolerance is at most
   half the slack; with a wider tolerance some claim passes every position check and is refused
   in the end, even though it reports the plain distance of its own positions.
   */
  lemma OverlapGateRedundantIff(cfg: Fairness)
    requires cfg.visibleRadius >= 0.0 && cfg.positionTolerance >= 0.0 && cfg.distanceTolerance >= 0.0
    ensures OverlapGateIsRedundant(cfg) <==> cfg.positionTolerance <= cfg.slack / 2.0
  {
    hide IsDistance;
    if cfg.positionTolerance <= cfg.slack / 2.0 {
      forall report, visual | PassesPositionChecks(cfg, report, visual)
        ensures report.r <= cfg.ReconstructRadius()
      {
        WayRoundIsLonger(report.p, report.p', report.q', report.q, report.a, report.d, report.b, report.r);
      }
    } else {
      var widest := OnALine(cfg.positionTolerance, cfg.visibleRadius);
      LineIsValid(cfg.positionTolerance, cfg.visibleRadius);
      assert PassesPositionChecks(cfg, widest, widest.d);
    }
  }

  /**
   Every passing claim is still bounded: its entities were no further apart than the visible
   radius and two tolerances.
   */
  lemma PassingClaimsAreNear(cfg: Fairness, report: Report, visual: real)
    requires PassesPositionChecks(cfg, report, visual)
    ensures report.r <= cfg.visibleRadius + 2.0 * cfg.positionTolerance
    ensures Abs(report.r - visual) <= cfg.distanceTolerance + 2.0 * cfg.positionTolerance
  {
    WayRoundIsLonger(report.p, report.p', report.q', report.q, report.a, report.d, report.b, report.r);
    ReportIsMirrored(report);
    WayRoundIsLonger(report.p', report.p, report.q, report.q', report.a, report.r, report.b, report.d);
    hide IsDistance;
  }

  // ---- whole claims, in the order in which the room asks ----

  function DeathVerdict(cfg: Fairness, maxSkew: real, visual: real, victimTick: real, enemyTick: real,
                        report: Report, rules: DeathRules): Verdict {
    var shape := Shape(cfg, visual, victimTick, enemyTick, maxSkew);
    var consistent := PositionsConsistent(cfg, report.d, visual);
    if shape.Err? then shape
    else if consistent.Err? then consistent
    else if !WithinPositionTolerance(cfg, report.a) then Err(VictimMismatch)
    else if !WithinPositionTolerance(cfg, report.b) then Err(EnemyMismatch)
    else ValidateDeath(cfg, rules, report.r)
  }

  function EnemyEatVerdict(cfg: Fairness, visual: real, attackerTick: real, targetTick: real,
                           report: Report, attackerAlive: bool, rules: EnemyEatRules): Verdict {
    var shape := EatShape(cfg, visual, attackerTick, targetTick);
    var eligible := AttackerEligible(cfg, attackerAlive, report.a);
    if shape.Err? then shape
    else if eligible.Err? then eligible
    else if !WithinPositionTolerance(cfg, report.b) then Err(TargetMismatch)
    else EnemyEat(cfg, rules, report.r)
  }

  function PlayerEatVerdict(cfg: Fairness, visual: real, attackerTick: real, targetTick: real,
                            report: Report, attackerAlive: bool, rules: PlayerEatRules): Verdict {
    var shape := EatShape(cfg, visual, attackerTick, targetTick);
    var eligible := AttackerEligible(cfg, attackerAlive, report.a);
    if shape.Err? then shape
    else if eligible.Err? then eligible
    else if !WithinPositionTolerance(cfg, report.b) then Err(TargetMismatch)
    else PlayerEat(cfg, rules, report.r)
  }

  // ---- exactly which claims stand, and why the others do not ----

  /** What a death claim reports agrees with itself and with the history. */
  predicate Agrees(cfg: Fairness, report: Report, visual: real) {
    && report.d - cfg.distanceTolerance <= visual <= report.d + cfg.distanceTolerance
    && report.d <= cfg.visibleRadius
    && report.a <= cfg.positionTolerance && report.b <= cfg.positionTolerance
  }

  lemma DeathStandsIff(cfg: Fairness, maxSkew: real, visual: real, victimTick: real, enemyTick: real,
                       report: Report, rules: DeathRules)
    ensures DeathVerdict(cfg, maxSkew, visual, victimTick, enemyTick, report, rules).Ok? <==>
              && 0.0 <= visual <= cfg.visibleRadius && enemyTick <= victimTick <= enemyTick + maxSkew
              && Agrees(cfg, report, visual) && report.r <= cfg.visibleRadius + cfg.slack
              && rules.victimNowAlive && !rules.victimNowProtected
              && rules.victimHistAlive && !rules.victimHistProtected && !rules.victimHistInvincible
              && !rules.inSafeZone && rules.enemyScore > rules.victimScore
  {
  }

  /** Drawn in order and in sight, by a living attacker, with both positions confirmed and close enough. */
  predicate DrawnInSight(cfg: Fairness, visual: real, attackerTick: real, targetTick: real, report: Report,
                         alive: bool)
  {
    && visual <= cfg.visibleRadius && targetTick <= attackerTick <= targetTick + cfg.maxViewSkew
    && alive && report.a <= cfg.positionTolerance && report.b <= cfg.positionTolerance
    && report.r <= cfg.visibleRadius + cfg.slack
  }

  lemma EatsStandIff(cfg: Fairness, visual: real, attackerTick: real, targetTick: real, report: Report, alive: bool,
                     enemy: EnemyEatRules, player: PlayerEatRules)
    ensures EnemyEatVerdict(cfg, visual, attackerTick, targetTick, report, alive, enemy).Ok? <==>
              && DrawnInSight(cfg, visual, attackerTick, targetTick, report, alive)
              && (enemy.claimedGeneration.Some? ==> enemy.claimedGeneration == Some(enemy.currentGeneration))
              && enemy.respawnedAt + cfg.respawnGrace < enemy.targetFloor
              && (enemy.attackerInvincible || enemy.enemyScore < enemy.attackerScore)
    ensures PlayerEatVerdict(cfg, visual, attackerTick, targetTick, report, alive, player).Ok? <==>
              && DrawnInSight(cfg, visual, attackerTick, targetTick, report, alive)
              && player.victimNowAlive && !player.victimNowProtected
              && player.victimHistAlive && !player.victimHistProtected && !player.victimHistInvincible
              && !player.inSafeZone && (player.attackerInvincible || player.victimScore < player.attackerScore)
  {
  }

  /** What a refused death claim is told is true of it. */
  lemma DeathRefusalIsTrue(cfg: Fairness, maxSkew: real, visual: real, victimTick: real, enemyTick: real,
                           report: Report, rules: DeathRules)
    requires DeathVerdict(cfg, maxSkew, visual, victimTick, enemyTick, report, rules).Err?
    ensures match DeathVerdict(cfg, maxSkew, visual, victimTick, enemyTick, report, rules).error
            case VisualTooFar => visual < 0.0 || visual > cfg.visibleRadius
            case VictimBehindEnemy => victimTick < enemyTick
            case SkewTooLarge => victimTick > enemyTick + maxSkew
            case VisualMismatch =>
              visual < report.d - cfg.distanceTolerance || visual > report.d + cfg.distanceTolerance
            case ReportedTooFar => report.d > cfg.visibleRadius
            case VictimMismatch => report.a > cfg.positionTolerance
            case EnemyMismatch => report.b > cfg.positionTolerance
            case VictimNotAliveNow => !rules.victimNowAlive
            case VictimProtectedNow => rules.victimNowProtected
            case VictimNotAliveAtClaim => !rules.victimHistAlive
            case VictimProtected => rules.victimHistProtected
            case VictimInvincible => rules.victimHistInvincible
            case InSafeZone => rules.inSafeZone
            case EnemyNotBigger => rules.enemyScore <= rules.victimScore
            case ReconstructedTooFar => report.r > cfg.visibleRadius + cfg.slack
            case _ => false
  {
  }

  /** And so is what a refused eat is told. */
  lemma EatRefusalIsTrue(cfg: Fairness, visual: real, attackerTick: real, targetTick: real, report: Report, alive: bool,
                         enemy: EnemyEatRules)
    requires EnemyEatVerdict(cfg, visual, attackerTick, targetTick, report, alive, enemy).Err?
    ensures match EnemyEatVerdict(cfg, visual, attackerTick, targetTick, report, alive, enemy).error
            case VisualTooFar => visual > cfg.visibleRadius
            case TargetAheadOfAttacker => attackerTick < targetTick
            case SkewTooLarge => attackerTick > targetTick + cfg.maxViewSkew
            case AttackerNotAlive => !alive
            case AttackerMismatch => report.a > cfg.positionTolerance
            case TargetMismatch => report.b > cfg.positionTolerance
            case GenerationMismatch =>
              enemy.claimedGeneration.Some? && enemy.claimedGeneration.value != enemy.currentGeneration
            case AlreadyRespawned => enemy.targetFloor < enemy.respawnedAt
            case RespawnGrace => enemy.respawnedAt <= enemy.targetFloor <= enemy.respawnedAt + cfg.respawnGrace
            case CannotEatEnemy => !enemy.attackerInvincible && enemy.attackerScore <= enemy.enemyScore
            case ReconstructedTooFar => report.r > cfg.visibleRadius + cfg.slack
            case _ => false
  {
  }

  /** A negative visual distance is refused by the death policy; the eat policy judges it as zero. */
  lemma EatsTakeNegativeAsZero(cfg: Fairness, visual: real, attackerTick: real, targetTick: real, maxSkew: real,
                               report: Report, attackerAlive: bool, rules: EnemyEatRules)
    requires visual < 0.0 <= cfg.visibleRadius
    ensures Shape(cfg, visual, attackerTick, targetTick, maxSkew) == Err(VisualTooFar)
    ensures EatShape(cfg, visual, attackerTick, targetTick) == EatShape(cfg, 0.0, attackerTick, targetTick)
    ensures EnemyEatVerdict(cfg, visual, attackerTick, targetTick, report, attackerAlive, rules)
         == EnemyEatVerdict(cfg, 0.0, attackerTick, targetTick, report, attackerAlive, rules)
  {
  }

  /** What a client that reports what it drew can rely on: positions and distance within the tolerances. */
  predicate Faithful(cfg: Fairness, report: Report, visual: real) {
    && Honest(cfg, report)
    && WithinPositionTolerance(cfg, report.a) && WithinPositionTolerance(cfg, report.b)
    && 0.0 <= visual <= cfg.visibleRadius && Abs(report.d - visual) <= cfg.distanceTolerance
  }

  /** A faithful death claim stands exactly when its ticks are in order and the death is lethal by the other rules. */
  lemma FaithfulDeathsStand(cfg: Fairness, maxSkew: real, visual: real, victimTick: real, enemyTick: real,
                            report: Report, rules: DeathRules, enemy: EnemyEatRules, player: PlayerEatRules)
    requires Faithful(cfg, report, visual)
    ensures DeathVerdict(cfg, maxSkew, visual, victimTick, enemyTick, report, rules).Ok?
       <==> enemyTick <= victimTick <= enemyTick + maxSkew && rules.Lethal()
    ensures EnemyEatVerdict(cfg, visual, victimTick, enemyTick, report, true, enemy).Ok?
       <==> enemyTick <= victimTick <= enemyTick + cfg.maxViewSkew && enemy.Edible(cfg)
    ensures PlayerEatVerdict(cfg, visual, victimTick, enemyTick, report, true, player).Ok?
       <==> enemyTick <= victimTick <= enemyTick + cfg.maxViewSkew && player.Edible()
  {
    HonestClaimsOverlap(cfg, report, rules, enemy, player);
    hide IsDistance;
  }

  /**
   Any death claim that stands, faithful or not, was lethal, in order, and of entities close to
   each other and to their reports.
   */
  lemma StandingDeathsAreNear(cfg: Fairness, maxSkew: real, visual: real, victimTick: real, enemyTick: real,
                              report: Report, rules: DeathRules)
    requires report.Valid() && DeathVerdict(cfg, maxSkew, visual, victimTick, enemyTick, report, rules).Ok?
    ensures rules.Lethal() && enemyTick <= victimTick <= enemyTick + maxSkew
    ensures report.r <= cfg.ReconstructRadius() && report.r <= cfg.visibleRadius + 2.0 * cfg.positionTolerance
    ensures Abs(report.r - visual) <= cfg.distanceTolerance + 2.0 * cfg.positionTolerance
  {
    PassingClaimsAreNear(cfg, report, visual);
    hide IsDistance;
  }

  lemma ReportIsMirrored(report: Report)
    requires report.Valid()
    ensures IsDistance(report.a, report.p', report.p) && IsDistance(report.b, report.q, report.q')
  {
    SquareMirrored(report.p.x - report.p'.x);
    SquareMirrored(report.p.y - report.p'.y);
    SquareMirrored(report.q'.x - report.q.x);
    SquareMirrored(report.q'.y - report.q.y);
    hide Square;
    assert report.p'.x - report.p.x == -(report.p.x - report.p'.x);
    assert report.p'.y - report.p.y == -(report.p.y - report.p'.y);
    assert report.q.x - report.q'.x == -(report.q'.x - report.q.x);
    assert report.q.y - report.q'.y == -(report.q'.y - report.q.y);
  }
}
