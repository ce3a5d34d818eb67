/**
 How a filler bot follows its path: waypoints are popped as they are reached and each turn is
 pressed after a delay.
 */
module FillerBots {
  import opened Wrappers
  import opened GameMaps
  import opened Pathfinder

  /** The bot at cell `c` can continue: its route starts at `c`, or `c` is the waypoint it has just reached. */
  predicate OnTrack(maze: GameMap, c: Cell, path: seq<Cell>)
    requires maze.Valid()
  {
    || Route(maze, c, path)
    || (path != [] && path[|path| - 1] == c && Route(maze, c, path[..|path| - 1]))
  }

  /** The path once every waypoint equal to `c` at its end has been popped. */
  function Popped(path: seq<Cell>, c: Cell): seq<Cell> {
    if path != [] && path[|path| - 1] == c then Popped(path[..|path| - 1], c) else path
  }

  /** A bot on track has at most one waypoint to pop, and what remains starts beside it. */
  lemma PoppingKeepsRoute(maze: GameMap, c: Cell, path: seq<Cell>)
    requires maze.Valid() && OnTrack(maze, c, path)
    ensures Route(maze, c, Popped(path, c)) && |Popped(path, c)| >= |path| - 1
    ensures Popped(path, c) != [] ==> Move(maze, c, Popped(path, c)[|Popped(path, c)| - 1])
  {
    if Route(maze, c, path) {
      RouteStartsBeside(maze, c, path);
    } else {
      RouteStartsBeside(maze, c, path[..|path| - 1]);
    }
  }

  lemma RouteStartsBeside(maze: GameMap, c: Cell, path: seq<Cell>)
    requires maze.Valid() && Route(maze, c, path)
    ensures path != [] ==> Move(maze, c, path[|path| - 1])
    ensures Popped(path, c) == path
  {
    if path != [] {
      assert Leg(maze, c, path, |path| - 1);
    }
  }

  /** Having moved onto the next waypoint, the bot is on track again. */
  lemma ReachingWaypointStaysOnTrack(maze: GameMap, c: Cell, path: seq<Cell>)
    requires maze.Valid() && Route(maze, c, path) && path != []
    ensures Route(maze, path[|path| - 1], path[..|path| - 1])
    ensures OnTrack(maze, path[|path| - 1], path)
  {
    var rest, next := path[..|path| - 1], path[|path| - 1];
    forall i | 0 <= i < |rest|
      ensures Leg(maze, next, rest, i)
    {
      assert Leg(maze, c, path, i);
    }
  }

  /** The turns a bot presses when it follows a whole route. */
  function Turns(maze: GameMap, c: Cell, path: seq<Cell>): seq<Direction>
    requires maze.Valid() && Route(maze, c, path)
    decreases |path|
  {
    if path == [] then [] else
      RouteStartsBeside(maze, c, path);
      ReachingWaypointStaysOnTrack(maze, c, path);
      DirectionsAreSteps(c, path[|path| - 1], Up);
      var next := path[|path| - 1];
      [DirBetween(c, next).value] + Turns(maze, next, path[..|path| - 1])
  }

  /** Pressing turns one after another; none if one would leave the grid or enter a wall. */
  function Drive(maze: GameMap, c: Cell, turns: seq<Direction>): Option<Cell>
    requires maze.Valid()
    decreases |turns|
  {
    if turns == [] then Some(c)
    else
      var n := StepCell(c, turns[0]);
      if n.None? || maze.IsWall(n.value) then None else Drive(maze, n.value, turns[1..])
  }

  /** Following a route drives to its target in as many moves as it has waypoints, and never into a wall. */
  lemma {:induction false} TurnsDriveToTarget(maze: GameMap, c: Cell, path: seq<Cell>)
    requires maze.Valid() && Route(maze, c, path)
    ensures |Turns(maze, c, path)| == |path|
    ensures Drive(maze, c, Turns(maze, c, path)) == Some(if path == [] then c else path[0])
    decreases |path|
  {
    if path != [] {
      var next := path[|path| - 1];
      RouteStartsBeside(maze, c, path);
      ReachingWaypointStaysOnTrack(maze, c, path);
      DirectionsAreSteps(c, next, DirBetween(c, next).value);
      TurnsDriveToTarget(maze, next, path[..|path| - 1]);
      assert Turns(maze, c, path)[1..] == Turns(maze, next, path[..|path| - 1]);
    }
  }

  /** A drive is a walk, so no list of turns reaches the target of a shortest route in fewer moves. */
  lemma {:induction false} DriveIsAWalk(maze: GameMap, c: Cell, turns: seq<Direction>, target: Cell)
    returns (walk: seq<Cell>)
    requires maze.Valid() && Drive(maze, c, turns) == Some(target)
    ensures Connects(maze, walk, c, target) && |walk| == |turns| + 1
    decreases |turns|
  {
    if turns == [] {
      walk := [c];
    } else {
      var n := StepCell(c, turns[0]).value;
      var rest := DriveIsAWalk(maze, n, turns[1..], target);
      DirectionsAreSteps(c, n, turns[0]);
      walk := [c] + rest;
      forall i | 0 < i < |walk|
        ensures Move(maze, walk[i - 1], walk[i])
      {
        if i > 1 {
          assert Move(maze, rest[i - 1 - 1], rest[i - 1]);
        }
      }
    }
  }

  predicate Sideways(d: Direction, side: Direction) {
    (d.Up? || d.Down?) <==> (side.Left? || side.Right?)
  }

  function FirstSide(d: Direction, first: bool): Direction {
    if d.Up? || d.Down? then (if first then Left else Right) else (if first then Direction.Up else Down)
  }

  /** A walkable turn to the side; `first` is the random draw of which side is tried first. */
  function WrongTurn(maze: GameMap, c: Cell, d: Direction, first: bool): (turn: Option<Direction>)
    requires maze.Valid()
    ensures turn.Some? ==> Walkable(maze, c, turn.value) && Sideways(d, turn.value)
    ensures turn.None? <==> forall side: Direction | Sideways(d, side) :: !Walkable(maze, c, side)
    ensures turn.Some? && Walkable(maze, c, FirstSide(d, first)) ==> turn.value == FirstSide(d, first)
  {
    var a, b := FirstSide(d, first), FirstSide(d, !first);
    if Walkable(maze, c, a) then Some(a) else if Walkable(maze, c, b) then Some(b) else None
  }

  predicate Walkable(maze: GameMap, c: Cell, d: Direction)
    requires maze.Valid()
  {
    StepCell(c, d).Some? && !maze.IsWall(StepCell(c, d).value)
  }

  class BotController {
    var path: seq<Cell>
    var pending: Option<(Direction, nat)>

    constructor ()
      ensures path == [] && pending == None
    {
      path, pending := [], None;
    }

    /** A new plan is on track from where the bot stands. */
    method ReplanPath(maze: GameMap, me: Position, target: Position)
      requires maze.Valid()
      modifies this`path
      ensures OnTrack(maze, maze.PosToGrid(me), path)
      ensures path != [] ==> path[0] == maze.PosToGrid(target)
      ensures path == [] <==>
                || maze.PosToGrid(me) == maze.PosToGrid(target) || maze.IsWall(maze.PosToGrid(target))
                || forall turns :: Drive(maze, maze.PosToGrid(me), turns) != Some(maze.PosToGrid(target))
      ensures path != [] ==> forall turns |
                Drive(maze, maze.PosToGrid(me), turns) == Some(maze.PosToGrid(target)) :: |path| <= |turns|
    {
      var from := maze.PosToGrid(me);
      path := BfsPath(maze, me, target);
      forall turns | Drive(maze, from, turns) == Some(maze.PosToGrid(target))
        ensures exists walk :: Connects(maze, walk, from, maze.PosToGrid(target)) && |walk| == |turns| + 1
      {
        var walk := DriveIsAWalk(maze, from, turns, maze.PosToGrid(target));
      }
      if path != [] {
        TurnsDriveToTarget(maze, from, path);
      }
    }

    /**
     Decide the next turn. On track and without a deliberate mistake, the pending turn is
     the one that steps onto the next waypoint, which is not a wall; and a mistake is
     still a turn into an open cell.
     */
    method StepAlongPath(maze: GameMap, me: Position, tick: nat, mistake: bool, first: bool, reaction: nat)
      requires maze.Valid()
      modifies this
      ensures old(pending).Some? ==> pending == old(pending) && path == old(path)
      ensures old(pending).None? ==>
                var rest := Popped(old(path), maze.PosToGrid(me));
                var dir := if rest == [] then None else DirBetween(maze.PosToGrid(me), rest[|rest| - 1]);
                if dir.None? then pending == None && path == rest
                else
                  var wrong := if mistake then WrongTurn(maze, maze.PosToGrid(me), dir.value, first) else None;
                  && pending == Some((if wrong.Some? then wrong.value else dir.value, tick + reaction))
                  && path == (if wrong.Some? then [] else rest)
      ensures old(pending).None? && OnTrack(maze, maze.PosToGrid(me), old(path)) ==>
                var rest := Popped(old(path), maze.PosToGrid(me));
                if rest == [] then pending == None && path == []
                else
                  && pending.Some? && pending.value.1 == tick + reaction
                  && Walkable(maze, maze.PosToGrid(me), pending.value.0)
                  && (path == rest || (mistake && path == []))
                  && (!mistake ==>
                        (path == rest && StepCell(maze.PosToGrid(me), pending.value.0) == Some(rest[|rest| - 1])))
    {
      if pending.Some? {
        return;
      }
      var meCell := maze.PosToGrid(me);
      ghost var start := path;
      while path != [] && path[|path| - 1] == meCell
        invariant Popped(path, meCell) == Popped(start, meCell)
        invariant pending == None
        decreases |path|
      {
        path := path[..|path| - 1];
      }
      if OnTrack(maze, meCell, start) {
        PoppingKeepsRoute(maze, meCell, start);
      }
      if path == [] {
        return;
      }
      var next := path[|path| - 1];
      var dir := DirBetween(meCell, next);
      DirectionsAreSteps(meCell, next, if dir.Some? then dir.value else Up);
      if dir.None? {
        return;
      }
      var turn := dir.value;
      if mistake {
        var wrong := WrongTurn(maze, meCell, turn, first);
        if wrong.Some? {
          turn := wrong.value;
          path := [];
        }
      }
      pending := Some((turn, tick + reaction));
    }

    /** A decided turn fires once, when its reaction delay has passed. */
    method FirePending(tick: nat) returns (pressed: Option<Direction>)
      modifies this`pending
      ensures if old(pending).Some? && tick >= old(pending).value.1
              then pressed == Some(old(pending).value.0) && pending == None
              else pressed == None && pending == old(pending)
    {
      if pending.Some? && tick >= pending.value.1 {
        pressed := Some(pending.value.0);
        pending := None;
        return;
      }
      return None;
    }
  }
}
