/** The maze grid: positions, cells, and the mapping between them. Floating-point coordinates are modelled as reals. */
module GameMaps {
  import opened RealArithmetic
  import opened Wrappers

  datatype Direction = Up | Down | Left | Right

  datatype Position = Position(x: real, y: real)

  function SquaredDistance(p: Position, q: Position): real {
    Square(p.x - q.x) + Square(p.y - q.y)
  }

  datatype Cell = Cell(x: nat, y: nat)

  /** `grid[y][x]` is true for a wall. */
  datatype GameMap = GameMap(
    width: real, height: real, cellSize: real, gridWidth: nat, gridHeight: nat, grid: seq<seq<bool>>)
  {
    predicate Valid() {
      && cellSize > 0.0 && gridWidth > 0 && gridHeight > 0
      && |grid| == gridHeight
      && (forall y | 0 <= y < gridHeight :: |grid[y]| == gridWidth)
    }

    predicate InGrid(c: Cell) {
      c.x < gridWidth && c.y < gridHeight
    }

    /** Everything outside the grid is a wall. */
    predicate IsWall(c: Cell)
      requires Valid()
    {
      !InGrid(c) || grid[c.y][c.x]
    }

    function PosToGrid(p: Position): (c: Cell)
      requires Valid()
      ensures InGrid(c)
    {
      Cell(Min(FloorToIndex(p.x / cellSize), gridWidth - 1), Min(FloorToIndex(p.y / cellSize), gridHeight - 1))
    }

    function GridToPos(c: Cell): Position {
      Position(c.x as real * cellSize + cellSize / 2.0, c.y as real * cellSize + cellSize / 2.0)
    }

    predicate IsWalkable(p: Position)
      requires Valid()
    {
      !IsWall(PosToGrid(p))
    }
  }

  function Min(a: nat, b: nat): nat {
    if a <= b then a else b
  }

  /** `floor() as usize`: the cast saturates at zero. */
  function FloorToIndex(r: real): nat {
    if r.Floor < 0 then 0 else r.Floor
  }

  // ---- moving between cells ----

  function StepCell(c: Cell, d: Direction): Option<Cell> {
    match d
    case Right => Some(Cell(c.x + 1, c.y))
    case Left => if c.x == 0 then None else Some(Cell(c.x - 1, c.y))
    case Down => Some(Cell(c.x, c.y + 1))
    case Up => if c.y == 0 then None else Some(Cell(c.x, c.y - 1))
  }

  /** The direction from a cell to an adjacent one; none for any other pair. */
  function DirBetween(a: Cell, b: Cell): Option<Direction> {
    var dx, dy := b.x - a.x, b.y - a.y;
    if dx == 1 && dy == 0 then Some(Right)
    else if dx == -1 && dy == 0 then Some(Left)
    else if dx == 0 && dy == 1 then Some(Down)
    else if dx == 0 && dy == -1 then Some(Up)
    else None
  }

  predicate Adjacent(a: Cell, b: Cell) {
    (a.y == b.y && (b.x == a.x + 1 || a.x == b.x + 1)) || (a.x == b.x && (b.y == a.y + 1 || a.y == b.y + 1))
  }

  /** `DirBetween` and `StepCell` are inverse on adjacent cells, and defined exactly there. */
  lemma DirectionsAreSteps(a: Cell, b: Cell, d: Direction)
    ensures DirBetween(a, b) == Some(d) <==> StepCell(a, d) == Some(b)
    ensures DirBetween(a, b).Some? <==> Adjacent(a, b)
  {
  }
}
