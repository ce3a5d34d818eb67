/** The maze-walking enemies: choosing a direction, snapping to the cell centre to turn, moving, and clamping. */
module EnemyMovement {
  import opened Wrappers
  import opened GameMaps
  import opened RealArithmetic

  datatype Target = Target(position: Position, isAlive: bool)

  datatype EnemyState = EnemyState(position: Position, direction: Direction, desired: Direction, nextChange: nat)

  /** The draws of the random generator that one update may use. */
  datatype Draws = Draws(direction: Direction, waitTicks: nat)

  // ---- one axis of the map ----

  /** The coordinate of the left edge of cell `k`. */
  function Edge(cs: real, k: int): real {
    k as real * cs
  }

  lemma EdgeSteps(cs: real, k: int)
    ensures Edge(cs, k + 1) == Edge(cs, k) + cs && Edge(cs, 0) == 0.0
  {
  }

  lemma EdgesAscend(cs: real, j: int, k: int)
    requires cs > 0.0 && j <= k
    ensures Edge(cs, j) <= Edge(cs, k)
  {
  }

  function Center(cs: real, k: int): real {
    Edge(cs, k) + cs / 2.0
  }

  /** The cell of a coordinate; the first and the last cell extend outwards without end. */
  function AxisCell(cs: real, n: nat, x: real): nat
    requires cs > 0.0 && n > 0
  {
    Min(FloorToIndex(x / cs), n - 1)
  }

  predicate InAxisCell(cs: real, n: nat, x: real, k: nat) {
    k < n && (k == 0 || Edge(cs, k) <= x) && (k == n - 1 || x < Edge(cs, k + 1))
  }

  lemma FloorBounds(cs: real, x: real, f: int)
    requires cs > 0.0 && f == (x / cs).Floor
    ensures Edge(cs, f) <= x < Edge(cs, f + 1)
  {
    ScaledBounds(cs, x / cs, f);
  }

  lemma ScaledBounds(cs: real, q: real, f: int)
    requires cs > 0.0 && f as real <= q < (f + 1) as real
    ensures Edge(cs, f) <= q * cs < Edge(cs, f + 1)
  {
    assert (q - f as real) * cs >= 0.0;
    assert ((f + 1) as real - q) * cs > 0.0;
  }

  /** The mapping to cells is inverted by the cell edges. */
  lemma AxisCellBounds(cs: real, n: nat, x: real, k: nat)
    requires cs > 0.0 && n > 0
    ensures AxisCell(cs, n, x) == k <==> InAxisCell(cs, n, x, k)
  {
    var f := (x / cs).Floor;
    FloorBounds(cs, x, f);
    hide Edge;
    if f < k {
      EdgesAscend(cs, f + 1, k);
    } else if f > k {
      EdgesAscend(cs, k + 1, f);
    }
    if f < 0 {
      EdgesAscend(cs, f + 1, 0);
      EdgesAscend(cs, 0, k + 1);
    }
  }

  function Clamp(v: real, lo: real, hi: real): real {
    if v < lo then lo else if v > hi then hi else v
  }

  /** Move along one axis: forwards or backwards by `d`, no further than the cell centre if the way is blocked. */
  function Advance(cs: real, k: nat, x: real, d: real, forwards: bool, blocked: bool): real {
    if forwards then
      if blocked && x + d > Center(cs, k) then Center(cs, k) else x + d
    else
      if blocked && x - d < Center(cs, k) then Center(cs, k) else x - d
  }

  function ClampAxis(cs: real, n: nat, x: real): real {
    Clamp(x, cs / 2.0, Edge(cs, n) - cs / 2.0)
  }

  /** A move of at most one cell ends in the same cell or, if the way is open, in the next one. */
  lemma AxisMove(cs: real, n: nat, x: real, d: real, forwards: bool, blocked: bool)
    requires cs > 0.0 && n > 0 && 0.0 <= d <= cs
    requires !blocked ==> if forwards then AxisCell(cs, n, x) + 1 < n else AxisCell(cs, n, x) > 0
    ensures var k := AxisCell(cs, n, x);
            var k' := AxisCell(cs, n, ClampAxis(cs, n, Advance(cs, k, x, d, forwards, blocked)));
            k' == k || (!blocked && k' == if forwards then k + 1 else k - 1)
  {
    var k := AxisCell(cs, n, x);
    var moved := ClampAxis(cs, n, Advance(cs, k, x, d, forwards, blocked));
    AxisCellBounds(cs, n, x, k);
    EdgesAround(cs, n, k);
    AxisCellBounds(cs, n, moved, k);
    if !blocked {
      var next := if forwards then k + 1 else k - 1;
      EdgesAround(cs, n, next);
      AxisCellBounds(cs, n, moved, next);
    }
    hide Edge, AxisCell;
  }

  lemma EdgesAround(cs: real, n: nat, k: nat)
    requires cs > 0.0 && k < n
    ensures 0.0 <= Edge(cs, k) == Edge(cs, k + 1) - cs && Edge(cs, k + 1) <= Edge(cs, n)
    ensures k > 0 ==> cs <= Edge(cs, k)
    ensures k < n - 1 ==> Edge(cs, k + 1) <= Edge(cs, n) - cs
  {
    EdgeSteps(cs, k);
    EdgesAscend(cs, 0, k);
    EdgesAscend(cs, k + 1, n);
    if k > 0 {
      EdgeSteps(cs, 0);
      EdgesAscend(cs, 1, k);
    }
    if k < n - 1 {
      EdgeSteps(cs, n - 1);
      EdgesAscend(cs, k + 1, n - 1);
    }
  }

  /** A cell centre stays where it is when clamped, and is in its cell. */
  lemma CenterStays(cs: real, n: nat, k: nat)
    requires cs > 0.0 && k < n
    ensures ClampAxis(cs, n, Center(cs, k)) == Center(cs, k) && AxisCell(cs, n, Center(cs, k)) == k
  {
    EdgesAround(cs, n, k);
    AxisCellBounds(cs, n, Center(cs, k), k);
  }

  // ---- the enemy ----

  lemma GridToPosIsCenter(maze: GameMap, c: Cell)
    ensures maze.GridToPos(c) == Position(Center(maze.cellSize, c.x), Center(maze.cellSize, c.y))
  {
  }

  /** The world is as large as its grid. */
  predicate Sized(maze: GameMap) {
    && maze.Valid()
    && maze.width == Edge(maze.cellSize, maze.gridWidth) && maze.height == Edge(maze.cellSize, maze.gridHeight)
  }

  predicate CanMove(maze: GameMap, p: Position, d: Direction)
    requires maze.Valid()
  {
    var c := maze.PosToGrid(p);
    match d
    case Up => c.y > 0 && !maze.IsWall(Cell(c.x, c.y - 1))
    case Down => c.y + 1 < maze.gridHeight && !maze.IsWall(Cell(c.x, c.y + 1))
    case Left => c.x > 0 && !maze.IsWall(Cell(c.x - 1, c.y))
    case Right => c.x + 1 < maze.gridWidth && !maze.IsWall(Cell(c.x + 1, c.y))
  }

  function Snap(maze: GameMap, p: Position): Position
    requires maze.Valid()
  {
    maze.GridToPos(maze.PosToGrid(p))
  }

  predicate NearCenter(maze: GameMap, p: Position, threshold: real)
    requires maze.Valid()
  {
    Abs(p.x - Snap(maze, p).x) < threshold && Abs(p.y - Snap(maze, p).y) < threshold
  }

  function TurnThreshold(speed: real, tickRate: nat): real
    requires tickRate > 0
  {
    var t := speed / tickRate as real + 0.10;
    if t > 0.35 then t else 0.35
  }

  function FirstOpen(maze: GameMap, p: Position): Option<Direction>
    requires maze.Valid()
  {
    if CanMove(maze, p, Up) then Some(Up)
    else if CanMove(maze, p, Down) then Some(Down)
    else if CanMove(maze, p, Left) then Some(Left)
    else if CanMove(maze, p, Right) then Some(Right)
    else None
  }

  /** Turn to the desired direction if it is open, and away from a wall, both only near the cell centre. */
  function Turned(maze: GameMap, e: EnemyState, threshold: real): EnemyState
    requires maze.Valid()
  {
    var near := NearCenter(maze, e.position, threshold);
    var e1 :=
      if e.desired != e.direction && near && CanMove(maze, e.position, e.desired)
      then e.(position := Snap(maze, e.position), direction := e.desired) else e;
    if near && !CanMove(maze, e1.position, e1.direction) && FirstOpen(maze, e1.position).Some?
    then e1.(position := Snap(maze, e.position), direction := FirstOpen(maze, e1.position).value) else e1
  }

  function Moved(maze: GameMap, p: Position, dir: Direction, d: real): Position
    requires maze.Valid()
  {
    var c := maze.PosToGrid(p);
    var blocked := !CanMove(maze, p, dir);
    var next :=
      if dir.Up? || dir.Down?
      then Position(Center(maze.cellSize, c.x), Advance(maze.cellSize, c.y, p.y, d, dir.Down?, blocked))
      else Position(Advance(maze.cellSize, c.x, p.x, d, dir.Right?, blocked), Center(maze.cellSize, c.y));
    Clamped(maze, next)
  }

  function Clamped(maze: GameMap, p: Position): Position {
    var half := maze.cellSize * 0.5;
    Position(Clamp(p.x, half, maze.width - half), Clamp(p.y, half, maze.height - half))
  }

  /** `i` is the first of the living players at the least distance. */
  predicate IsNearest(me: Position, players: seq<Target>, i: nat) {
    && i < |players| && players[i].isAlive
    && (forall j | 0 <= j < |players| && players[j].isAlive ::
          SquaredDistance(me, players[i].position) <= SquaredDistance(me, players[j].position))
    && (forall j | 0 <= j < i && players[j].isAlive ::
          SquaredDistance(me, players[i].position) < SquaredDistance(me, players[j].position))
  }

  /** Towards the target along the longer axis; vertical on a tie. */
  function DirectionTo(me: Position, target: Position): Direction {
    var dx, dy := target.x - me.x, target.y - me.y;
    if Abs(dx) > Abs(dy) then (if dx > 0.0 then Right else Left)
    else if dy > 0.0 then Down else Direction.Up
  }

  function Longer(a: real, b: real): real {
    if Abs(a) > Abs(b) then Abs(a) else Abs(b)
  }

  function Shifted(p: Position, dir: Direction, d: real): Position {
    match dir
    case Up => Position(p.x, p.y - d)
    case Down => Position(p.x, p.y + d)
    case Left => Position(p.x - d, p.y)
    case Right => Position(p.x + d, p.y)
  }

  lemma NearerOnAxis(before: real, after: real, gap: real, d: real)
    requires 0.0 < d <= gap
    requires (before == gap && after == gap - d) || (before == -gap && after == -(gap - d))
    ensures Square(after) < Square(before)
  {
    SquareGrows(gap - d, gap);
    SquareMirrored(gap);
    SquareMirrored(gap - d);
    hide Square;
  }

  ghost predicate Retargeted(e: EnemyState, tick: nat, players: seq<Target>, draws: Draws, e': EnemyState) {
    if tick < e.nextChange then e' == e
    else
      && e' == e.(desired := e'.desired, nextChange := tick + draws.waitTicks)
      && (if exists p | p in players :: p.isAlive
          then exists i: nat :: IsNearest(e.position, players, i)
                 && e'.desired == DirectionTo(e.position, players[i].position)
          else e'.desired == draws.direction)
  }

  class Enemy {
    var position: Position
    var direction: Direction
    var desired: Direction
    var nextChange: nat
    const speed: real
    const tickRate: nat

    ghost function State(): EnemyState
      reads this
    {
      EnemyState(position, direction, desired, nextChange)
    }

    constructor (position: Position, speed: real, tickRate: nat, startTick: nat)
      ensures State() == EnemyState(position, Right, Right, startTick + 2 * tickRate)
      ensures this.speed == speed && this.tickRate == tickRate
    {
      this.position, direction, desired := position, Right, Right;
      this.speed, this.tickRate := speed, tickRate;
      nextChange := startTick + 2 * tickRate;
    }

    method FindNearestPlayer(players: seq<Target>) returns (nearest: Option<nat>)
      ensures nearest.None? <==> forall p | p in players :: !p.isAlive
      ensures nearest.Some? ==> IsNearest(position, players, nearest.value)
    {
      nearest := None;
      for i := 0 to |players|
        invariant nearest.None? <==> forall j | 0 <= j < i :: !players[j].isAlive
        invariant nearest.Some? ==> nearest.value < i && IsNearest(position, players[..i], nearest.value)
      {
        if players[i].isAlive {
          if nearest.None? || SquaredDistance(position, players[i].position)
                            < SquaredDistance(position, players[nearest.value].position) {
            nearest := Some(i);
          }
        }
      }
      assert players[..|players|] == players;
    }

    method ClampToMap(maze: GameMap)
      modifies this`position
      ensures position == Clamped(maze, old(position))
    {
      var half := maze.cellSize * 0.5;
      var x := Clamp(position.x, half, maze.width - half);
      var y := Clamp(position.y, half, maze.height - half);
      position := Position(x, y);
    }

    method MoveInDirection(dt: real, maze: GameMap)
      requires maze.Valid()
      modifies this`position
      ensures position == Moved(maze, old(position), direction, speed * dt)
    {
      hide Edge, CanMove, GameMap.GridToPos, GameMap.PosToGrid;
      var distance := speed * dt;
      var c := maze.PosToGrid(position);
      var center := maze.GridToPos(c);
      GridToPosIsCenter(maze, c);
      var wallAhead := !CanMove(maze, position, direction);
      var x, y := position.x, position.y;
      match direction {
        case Up =>
          y := y - distance;
          if wallAhead && y < center.y { y := center.y; }
        case Down =>
          y := y + distance;
          if wallAhead && y > center.y { y := center.y; }
        case Left =>
          x := x - distance;
          if wallAhead && x < center.x { x := center.x; }
        case Right =>
          x := x + distance;
          if wallAhead && x > center.x { x := center.x; }
      }
      if direction.Up? || direction.Down? {
        x := center.x;
      } else {
        y := center.y;
      }
      position := Position(x, y);
      ClampToMap(maze);
    }

    method Update(tick: nat, dt: real, players: seq<Target>, maze: GameMap, draws: Draws)
      requires maze.Valid() && tickRate > 0
      modifies this
      ensures Updated(maze, old(State()), tick, players, draws, TurnThreshold(speed, tickRate), speed * dt, State())
    {
      if tick >= nextChange {
        var target := FindNearestPlayer(players);
        if target.Some? {
          desired := DirectionTo(position, players[target.value].position);
        } else {
          desired := draws.direction;
        }
        nextChange := tick + draws.waitTicks;
      }
      ghost var retargeted := State();
      assert Retargeted(old(State()), tick, players, draws, retargeted);
      var center := maze.GridToPos(maze.PosToGrid(position));
      var threshold := TurnThreshold(speed, tickRate);
      var near := Abs(position.x - center.x) < threshold && Abs(position.y - center.y) < threshold;
      if desired != direction && near && CanMove(maze, position, desired) {
        position, direction := center, desired;
      }
      if near && !CanMove(maze, position, direction) {
        var open := FirstOpen(maze, position);
        if open.Some? {
          position, direction := center, open.value;
        }
      }
      assert State() == Turned(maze, retargeted, threshold);
      MoveInDirection(dt, maze);
    }
  }

  /** One update: retarget if it is time, turn, then move by `d`. */
  ghost predicate Updated(maze: GameMap, e: EnemyState, tick: nat, players: seq<Target>, draws: Draws,
                          threshold: real, d: real, e': EnemyState)
    requires maze.Valid()
  {
    exists r ::
      && Retargeted(e, tick, players, draws, r)
      && e' == Turned(maze, r, threshold).(position :=
                 Moved(maze, Turned(maze, r, threshold).position, Turned(maze, r, threshold).direction, d))
  }

  // ---- where a move ends ----

  /** A direction is open exactly when the next cell that way is in the grid and not a wall. */
  lemma OpenMeansFloorAhead(maze: GameMap, p: Position, d: Direction)
    requires maze.Valid()
    ensures var ahead := StepCell(maze.PosToGrid(p), d);
            CanMove(maze, p, d) <==> ahead.Some? && maze.InGrid(ahead.value) && !maze.IsWall(ahead.value)
  {
  }

  predicate Vertical(d: Direction) {
    d.Up? || d.Down?
  }

  /** The same place on the centre line of its cell across the direction. */
  function OnLine(maze: GameMap, p: Position, d: Direction): Position
    requires maze.Valid()
  {
    if Vertical(d) then Position(Snap(maze, p).x, p.y) else Position(p.x, Snap(maze, p).y)
  }

  /** How far ahead the centre of the cell lies; negative once it is behind. */
  function CenterAhead(maze: GameMap, p: Position, d: Direction): real
    requires maze.Valid()
  {
    var c := Snap(maze, p);
    match d
    case Up => p.y - c.y
    case Down => c.y - p.y
    case Left => p.x - c.x
    case Right => c.x - p.x
  }

  /** At least half a cell from the border of the map. */
  predicate Inside(maze: GameMap, p: Position) {
    && maze.cellSize / 2.0 <= p.x <= maze.width - maze.cellSize / 2.0
    && maze.cellSize / 2.0 <= p.y <= maze.height - maze.cellSize / 2.0
  }

  lemma SnapIsInside(maze: GameMap, p: Position)
    requires Sized(maze)
    ensures Inside(maze, Snap(maze, p))
  {
  }

  /** With an open way, the enemy goes the whole step along its line, as far as the border of the map allows. */
  lemma OpenMoveIsWhole(maze: GameMap, p: Position, dir: Direction, d: real)
    requires Sized(maze) && CanMove(maze, p, dir)
    ensures Moved(maze, p, dir, d) == Clamped(maze, Shifted(OnLine(maze, p, dir), dir, d))
    ensures Inside(maze, Shifted(OnLine(maze, p, dir), dir, d)) ==>
              Moved(maze, p, dir, d) == Shifted(OnLine(maze, p, dir), dir, d)
    ensures CenterAhead(maze, p, dir) >= 0.0 && 0.0 <= d <= maze.cellSize && Inside(maze, p) ==>
              Inside(maze, Shifted(OnLine(maze, p, dir), dir, d))
  {
    var c := maze.PosToGrid(p);
    GridToPosIsCenter(maze, c);
    OpenMeansFloorAhead(maze, p, dir);
    SnapIsInside(maze, p);
    EdgesAround(maze.cellSize, maze.gridWidth, c.x);
    EdgesAround(maze.cellSize, maze.gridHeight, c.y);
    hide Edge, GameMap.PosToGrid, GameMap.GridToPos, CanMove;
  }

  /** Before a wall, the enemy stops at the centre of its cell, or falls back to it, or goes the whole step. */
  lemma BlockedMoveStopsAtCenter(maze: GameMap, p: Position, dir: Direction, d: real)
    requires Sized(maze) && !CanMove(maze, p, dir) && d >= 0.0 && Inside(maze, p)
    ensures Moved(maze, p, dir, d)
         == if CenterAhead(maze, p, dir) <= d then Snap(maze, p) else Shifted(OnLine(maze, p, dir), dir, d)
  {
    var c := maze.PosToGrid(p);
    GridToPosIsCenter(maze, c);
    SnapIsInside(maze, p);
    hide Edge, GameMap.PosToGrid, GameMap.GridToPos, CanMove;
  }

  /** Chasing brings the enemy nearer: a whole step towards its target, unless it overshoots the longer gap. */
  lemma ChaseApproaches(maze: GameMap, me: Position, target: Position, d: real)
    requires Sized(maze) && CanMove(maze, me, DirectionTo(me, target))
    requires me == OnLine(maze, me, DirectionTo(me, target))
    requires 0.0 < d <= Longer(target.x - me.x, target.y - me.y)
    requires Inside(maze, Shifted(me, DirectionTo(me, target), d))
    ensures SquaredDistance(Moved(maze, me, DirectionTo(me, target), d), target) < SquaredDistance(me, target)
    ensures Vertical(DirectionTo(me, target)) <==> Abs(target.x - me.x) <= Abs(target.y - me.y)
  {
    var dir := DirectionTo(me, target);
    OpenMoveIsWhole(maze, me, dir, d);
    hide Square, OnLine, Moved, Inside;
    var after := Shifted(me, dir, d);
    if dir.Left? || dir.Right? {
      NearerOnAxis(me.x - target.x, after.x - target.x, Abs(target.x - me.x), d);
    } else {
      NearerOnAxis(me.y - target.y, after.y - target.y, Abs(target.y - me.y), d);
    }
  }

  // ---- when it turns ----

  const UNBLOCK_ORDER: seq<Direction> := [Up, Down, Left, Right]

  /** The direction after the turn: the desired one if open, else the old one if open, else the first open one. */
  ghost predicate TurnsTo(maze: GameMap, e: EnemyState, dir: Direction)
    requires maze.Valid()
  {
    var p := e.position;
    if CanMove(maze, p, e.desired) then dir == e.desired
    else if CanMove(maze, p, e.direction) then dir == e.direction
    else if exists i :: 0 <= i < 4 && CanMove(maze, p, UNBLOCK_ORDER[i]) then
      exists i :: && 0 <= i < 4 && dir == UNBLOCK_ORDER[i] && CanMove(maze, p, dir)
                  && forall j | 0 <= j < i :: !CanMove(maze, p, UNBLOCK_ORDER[j])
    else dir == e.direction
  }

  /** Away from the centre nothing turns; near it the turn is the one above; the enemy snaps exactly when it turns. */
  lemma TurnIsExact(maze: GameMap, e: EnemyState, threshold: real)
    requires maze.Valid()
    ensures var t := Turned(maze, e, threshold);
            && t.desired == e.desired && t.nextChange == e.nextChange
            && t.position == (if t.direction == e.direction then e.position else Snap(maze, e.position))
            && (if NearCenter(maze, e.position, threshold) then TurnsTo(maze, e, t.direction)
                else t.direction == e.direction)
  {
    SnapKeepsCell(maze, e.position);
    SameCellSameWays(maze, e.position, Snap(maze, e.position));
    hide GameMap.PosToGrid, Snap, CanMove, NearCenter;
    var p := e.position;
    assert UNBLOCK_ORDER[0] == Up && UNBLOCK_ORDER[1] == Down && UNBLOCK_ORDER[2] == Left && UNBLOCK_ORDER[3] == Right;
  }

  lemma SameCellSameWays(maze: GameMap, p: Position, q: Position)
    requires maze.Valid() && maze.PosToGrid(p) == maze.PosToGrid(q)
    ensures forall d :: CanMove(maze, p, d) <==> CanMove(maze, q, d)
  {
  }

  /** No centre is passed unnoticed: a tick that crosses one starts and ends near it. */
  lemma CentersAreNoticed(speed: real, tickRate: nat, x: real, x': real, center: real)
    requires speed >= 0.0 && tickRate > 0 && Abs(x' - x) <= speed / tickRate as real
    requires x <= center <= x' || x' <= center <= x
    ensures Abs(x - center) < TurnThreshold(speed, tickRate) && Abs(x' - center) < TurnThreshold(speed, tickRate)
  {
  }

  // ---- wall safety ----

  lemma PosToGridByAxis(maze: GameMap, p: Position)
    requires maze.Valid()
    ensures maze.PosToGrid(p) == Cell(AxisCell(maze.cellSize, maze.gridWidth, p.x),
                                      AxisCell(maze.cellSize, maze.gridHeight, p.y))
  {
  }

  lemma SnapKeepsCell(maze: GameMap, p: Position)
    requires maze.Valid()
    ensures maze.PosToGrid(Snap(maze, p)) == maze.PosToGrid(p)
  {
    var c := maze.PosToGrid(p);
    CenterStays(maze.cellSize, maze.gridWidth, c.x);
    CenterStays(maze.cellSize, maze.gridHeight, c.y);
    hide Edge, AxisCell, GameMap.GridToPos;
    GridToPosIsCenter(maze, c);
    PosToGridByAxis(maze, Snap(maze, p));
  }

  /** Turning leaves an enemy in its cell. */
  lemma TurningKeepsCell(maze: GameMap, e: EnemyState, threshold: real)
    requires maze.Valid()
    ensures maze.PosToGrid(Turned(maze, e, threshold).position) == maze.PosToGrid(e.position)
  {
    SnapKeepsCell(maze, e.position);
    hide GameMap.PosToGrid, Snap, CanMove, NearCenter;
  }

  /** A move of at most one cell size ends in the same cell or in an adjacent one that is not a wall. */
  lemma MoveStaysOnFloor(maze: GameMap, p: Position, dir: Direction, d: real)
    requires Sized(maze) && 0.0 <= d <= maze.cellSize
    ensures var c, c' := maze.PosToGrid(p), maze.PosToGrid(Moved(maze, p, dir, d));
            c' == c || (Adjacent(c, c') && !maze.IsWall(c') && StepCell(c, dir) == Some(c'))
  {
    var c, p' := maze.PosToGrid(p), Moved(maze, p, dir, d);
    PosToGridByAxis(maze, p);
    PosToGridByAxis(maze, p');
    var blocked := !CanMove(maze, p, dir);
    hide Edge, AxisCell, Advance, Center, GameMap.PosToGrid;
    if dir.Up? || dir.Down? {
      CenterStays(maze.cellSize, maze.gridWidth, c.x);
      AxisMove(maze.cellSize, maze.gridHeight, p.y, d, dir.Down?, blocked);
    } else {
      CenterStays(maze.cellSize, maze.gridHeight, c.y);
      AxisMove(maze.cellSize, maze.gridWidth, p.x, d, dir.Right?, blocked);
    }
  }

  /** After a move the position is inside the map and on the centre line of its cell along one axis. */
  lemma MoveStaysOnLine(maze: GameMap, p: Position, dir: Direction, d: real)
    requires Sized(maze)
    ensures var p' := Moved(maze, p, dir, d);
            && maze.cellSize / 2.0 <= p'.x <= maze.width - maze.cellSize / 2.0
            && maze.cellSize / 2.0 <= p'.y <= maze.height - maze.cellSize / 2.0
            && (p'.x == Center(maze.cellSize, maze.PosToGrid(p').x)
                || p'.y == Center(maze.cellSize, maze.PosToGrid(p').y))
  {
    var c, p' := maze.PosToGrid(p), Moved(maze, p, dir, d);
    PosToGridByAxis(maze, p');
    EdgesAround(maze.cellSize, maze.gridWidth, c.x);
    EdgesAround(maze.cellSize, maze.gridHeight, c.y);
    CenterStays(maze.cellSize, maze.gridWidth, c.x);
    CenterStays(maze.cellSize, maze.gridHeight, c.y);
    hide Edge, AxisCell, Advance, GameMap.PosToGrid;
  }

  /** Standing on the floor, inside the map, and on a centre line. */
  predicate OnFloor(maze: GameMap, p: Position)
    requires maze.Valid()
  {
    && maze.IsWalkable(p)
    && maze.cellSize / 2.0 <= p.x <= maze.width - maze.cellSize / 2.0
    && maze.cellSize / 2.0 <= p.y <= maze.height - maze.cellSize / 2.0
    && (p.x == Center(maze.cellSize, maze.PosToGrid(p).x) || p.y == Center(maze.cellSize, maze.PosToGrid(p).y))
  }

  /** One update from any walkable position, with any targets and draws. */
  lemma UpdateIsSafe(maze: GameMap, e: EnemyState, tick: nat, players: seq<Target>, draws: Draws,
                     threshold: real, d: real, e': EnemyState)
    requires Sized(maze) && 0.0 <= d <= maze.cellSize && maze.IsWalkable(e.position)
    requires Updated(maze, e, tick, players, draws, threshold, d, e')
    ensures OnFloor(maze, e'.position)
    ensures var c, c' := maze.PosToGrid(e.position), maze.PosToGrid(e'.position); c' == c || Adjacent(c, c')
  {
    hide Retargeted, Turned, Moved, GameMap.PosToGrid;
    var r :| Retargeted(e, tick, players, draws, r)
      && e' == Turned(maze, r, threshold).(position :=
                 Moved(maze, Turned(maze, r, threshold).position, Turned(maze, r, threshold).direction, d));
    RetargetingStays(e, tick, players, draws, r);
    var t := Turned(maze, r, threshold);
    TurningKeepsCell(maze, r, threshold);
    MoveStaysOnFloor(maze, t.position, t.direction, d);
    MoveStaysOnLine(maze, t.position, t.direction, d);
  }

  lemma RetargetingStays(e: EnemyState, tick: nat, players: seq<Target>, draws: Draws, r: EnemyState)
    requires Retargeted(e, tick, players, draws, r)
    ensures r.position == e.position
  {
  }

  /** One tick of a run: its number, its length, the players at that time, and the draws. */
  datatype Tick = Tick(tick: nat, dt: real, players: seq<Target>, draws: Draws)

  ghost predicate RunStep(maze: GameMap, states: seq<EnemyState>, ticks: seq<Tick>, speed: real, tickRate: nat, i: nat)
    requires maze.Valid() && tickRate > 0 && |states| == |ticks| + 1 && i < |ticks|
  {
    Updated(maze, states[i], ticks[i].tick, ticks[i].players, ticks[i].draws,
            TurnThreshold(speed, tickRate), speed * ticks[i].dt, states[i + 1])
  }

  ghost predicate Run(maze: GameMap, states: seq<EnemyState>, ticks: seq<Tick>, speed: real, tickRate: nat)
    requires maze.Valid() && tickRate > 0
  {
    && |states| == |ticks| + 1
    && forall i | 0 <= i < |ticks| :: RunStep(maze, states, ticks, speed, tickRate, i)
  }

  predicate ShortTicks(maze: GameMap, ticks: seq<Tick>, speed: real) {
    forall i | 0 <= i < |ticks| :: 0.0 <= speed * ticks[i].dt <= maze.cellSize
  }

  /**
   No run of updates enters a wall or leaves the map, whatever the targets and the draws:
   each update ends on the floor, in the cell it started in or in an adjacent one.
   */
  lemma {:induction false} EnemiesNeverEnterWalls(maze: GameMap, states: seq<EnemyState>, ticks: seq<Tick>,
                                                  speed: real, tickRate: nat, i: nat)
    requires Sized(maze) && tickRate > 0 && Run(maze, states, ticks, speed, tickRate)
    requires ShortTicks(maze, ticks, speed) && maze.IsWalkable(states[0].position) && i < |ticks|
    ensures OnFloor(maze, states[i + 1].position)
    ensures var c, c' := maze.PosToGrid(states[i].position), maze.PosToGrid(states[i + 1].position);
            c' == c || Adjacent(c, c')
  {
    hide Updated, GameMap.PosToGrid;
    if i > 0 {
      EnemiesNeverEnterWalls(maze, states, ticks, speed, tickRate, i - 1);
    }
    assert RunStep(maze, states, ticks, speed, tickRate, i);
    UpdateIsSafe(maze, states[i], ticks[i].tick, ticks[i].players, ticks[i].draws,
                 TurnThreshold(speed, tickRate), speed * ticks[i].dt, states[i + 1]);
  }

  /** The limit on the step is exact: any longer step can jump from the floor into a wall, on a straight corridor. */
  lemma LongerStepsEnterWalls(cs: real, d: real) returns (maze: GameMap, p: Position)
    requires d > cs > 0.0
    ensures Sized(maze) && maze.cellSize == cs && maze.IsWalkable(p)
    ensures !maze.IsWalkable(Moved(maze, p, Right, d))
  {
    maze := GameMap(3.0 * cs, cs, cs, 3, 1, [[false, false, true]]);
    p := Position(if d < 2.0 * cs then 2.0 * cs - d else cs / 2.0, cs / 2.0);
    assert maze.Valid();
    assert Edge(cs, 1) == cs && Edge(cs, 2) == 2.0 * cs && Edge(cs, 3) == 3.0 * cs;
    AxisCellBounds(cs, 3, p.x, 0);
    AxisCellBounds(cs, 1, p.y, 0);
    PosToGridByAxis(maze, p);
    assert CanMove(maze, p, Right);
    var p' := Moved(maze, p, Right, d);
    AxisCellBounds(cs, 3, p'.x, 2);
    PosToGridByAxis(maze, p');
  }

  /** Near a cell centre, an enemy that has any way out leaves its turn facing an open cell. */
  lemma TurnsAwayFromWalls(maze: GameMap, e: EnemyState, threshold: real, way: Direction)
    requires maze.Valid() && NearCenter(maze, e.position, threshold) && CanMove(maze, e.position, way)
    ensures CanMove(maze, Turned(maze, e, threshold).position, Turned(maze, e, threshold).direction)
    ensures CanMove(maze, e.position, e.desired) ==> Turned(maze, e, threshold).direction == e.desired
  {
    TurningKeepsCell(maze, e, threshold);
    TurningKeepsCell(maze, e.(direction := way), threshold);
  }
}
