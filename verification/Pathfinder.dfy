/** Shortest paths through the maze: what a route is, and why the breadth-first search finds a shortest one. */
module Pathfinder {
  import opened Wrappers
  import opened GameMaps

  // ---- walks and routes ----

  /** One move onto a cell that is not a wall. */
  predicate Move(maze: GameMap, a: Cell, b: Cell)
    requires maze.Valid()
  {
    Adjacent(a, b) && !maze.IsWall(b)
  }

  /** A walk may revisit cells; only its first cell may be a wall. */
  ghost predicate Walk(maze: GameMap, walk: seq<Cell>)
    requires maze.Valid()
  {
    |walk| > 0 && forall i | 0 < i < |walk| :: Move(maze, walk[i - 1], walk[i])
  }

  ghost predicate Connects(maze: GameMap, walk: seq<Cell>, a: Cell, b: Cell)
    requires maze.Valid()
  {
    Walk(maze, walk) && walk[0] == a && walk[|walk| - 1] == b
  }

  /** A route as the bot stores it: target first, next waypoint last. */
  predicate Route(maze: GameMap, from: Cell, route: seq<Cell>)
    requires maze.Valid()
  {
    forall i | 0 <= i < |route| :: Leg(maze, from, route, i)
  }

  /** The move onto waypoint `i`, from the waypoint after it in the stored order or from the start. */
  predicate Leg(maze: GameMap, from: Cell, route: seq<Cell>, i: nat)
    requires maze.Valid() && i < |route|
  {
    Move(maze, if i == |route| - 1 then from else route[i + 1], route[i])
  }

  // ---- the search state ----

  /** Distances found so far, cells fully expanded, and the cells waiting, nearest first. */
  datatype Search = Search(dist: map<Cell, nat>, done: set<Cell>, queue: seq<Cell>)

  /** Every found cell other than the start was found from a cell one step nearer. */
  ghost predicate Traced(maze: GameMap, from: Cell, dist: map<Cell, nat>, prev: map<Cell, Cell>)
    requires maze.Valid()
  {
    && from in dist && dist[from] == 0
    && (forall c | c in dist :: maze.InGrid(c))
    && (forall c | c in dist && c != from ::
          c in prev && prev[c] in dist && Move(maze, prev[c], c) && dist[c] == dist[prev[c]] + 1)
  }

  /** The queue holds what is found but not expanded. */
  ghost predicate Placed(s: Search) {
    && (forall c | c in s.queue :: c in s.dist && c !in s.done)
    && (forall c | c in s.dist :: c in s.done || c in s.queue)
    && s.done <= s.dist.Keys
  }

  /** The queue is ordered by distance, spans at most two distances, and holds what is found but not expanded. */
  ghost predicate Queued(s: Search) {
    Placed(s) && InLine(s) && NearFront(s)
  }

  ghost predicate InLine(s: Search)
    requires Placed(s)
  {
    forall i, j | 0 <= i < j < |s.queue| :: s.queue[i] != s.queue[j] && s.dist[s.queue[i]] <= s.dist[s.queue[j]]
  }

  ghost predicate NearFront(s: Search)
    requires Placed(s)
  {
    && (forall c, q | c in s.done && q in s.queue :: s.dist[c] <= s.dist[q])
    && (forall q, q' | q in s.queue && q' in s.queue :: s.dist[q] <= s.dist[q'] + 1)
  }

  ghost predicate Expanded(maze: GameMap, dist: map<Cell, nat>, c: Cell, d: Direction)
    requires maze.Valid() && c in dist
  {
    var n := StepCell(c, d);
    n.Some? && !maze.IsWall(n.value) ==> n.value in dist && dist[n.value] <= dist[c] + 1
  }

  ghost predicate AllExpanded(maze: GameMap, s: Search)
    requires maze.Valid() && s.done <= s.dist.Keys
  {
    forall c, d | c in s.done :: Expanded(maze, s.dist, c, d)
  }

  // ---- why the first time a cell is taken from the queue its distance is final ----

  lemma NeighbourOfDone(maze: GameMap, s: Search, a: Cell, b: Cell)
    requires maze.Valid() && s.done <= s.dist.Keys && AllExpanded(maze, s)
    requires a in s.done && Move(maze, a, b)
    ensures b in s.dist && s.dist[b] <= s.dist[a] + 1
  {
    DirectionsAreSteps(a, b, DirBetween(a, b).value);
    assert Expanded(maze, s.dist, a, DirBetween(a, b).value);
  }

  /** As long as a walk stays below the front distance, its cells have been found at least that near. */
  lemma {:induction false} WalkIsFound(maze: GameMap, s: Search, from: Cell, walk: seq<Cell>, front: nat, i: nat)
    requires maze.Valid() && Queued(s) && AllExpanded(maze, s)
    requires from in s.dist && s.dist[from] == 0
    requires Walk(maze, walk) && walk[0] == from && i < |walk| && i <= front
    requires forall c | c in s.dist && s.dist[c] < front :: c in s.done
    ensures walk[i] in s.dist && s.dist[walk[i]] <= i
  {
    if i > 0 {
      WalkIsFound(maze, s, from, walk, front, i - 1);
      NeighbourOfDone(maze, s, walk[i - 1], walk[i]);
    }
  }

  /** Cells found nearer than the front of the queue have been expanded. */
  lemma NearerIsDone(s: Search)
    requires Queued(s) && s.queue != []
    ensures forall c | c in s.dist && s.dist[c] < s.dist[s.queue[0]] :: c in s.done
  {
  }

  /** No walk to the front cell of the queue is shorter than its recorded distance. */
  lemma FrontIsNearest(maze: GameMap, s: Search, from: Cell, walk: seq<Cell>)
    requires maze.Valid() && Queued(s) && AllExpanded(maze, s)
    requires from in s.dist && s.dist[from] == 0 && s.queue != []
    requires Connects(maze, walk, from, s.queue[0])
    ensures |walk| - 1 >= s.dist[s.queue[0]]
  {
    var front := s.dist[s.queue[0]];
    if |walk| - 1 < front {
      NearerIsDone(s);
      WalkIsFound(maze, s, from, walk, front, |walk| - 1);
    }
  }

  /** Once the queue is empty, everything a walk can reach has been expanded. */
  lemma {:induction false} ExhaustedMeansUnreachable(maze: GameMap, s: Search, from: Cell, walk: seq<Cell>, i: nat)
    requires maze.Valid() && Queued(s) && AllExpanded(maze, s)
    requires from in s.dist && s.queue == []
    requires Walk(maze, walk) && walk[0] == from && i < |walk|
    ensures walk[i] in s.done
  {
    if i > 0 {
      ExhaustedMeansUnreachable(maze, s, from, walk, i - 1);
      NeighbourOfDone(maze, s, walk[i - 1], walk[i]);
    }
  }

  // ---- one expansion ----

  /** Finding `n` from the cell being expanded, `s.queue` no longer holding that cell. */
  function Found(s: Search, n: Cell, d: nat): Search {
    s.(dist := s.dist[n := d], queue := s.queue + [n])
  }

  /** The state between taking `cell` from the queue and finishing its four directions. */
  ghost predicate Expanding(s: Search, cell: Cell) {
    && cell in s.dist && cell !in s.done && cell !in s.queue
    && (forall q | q in s.queue :: q in s.dist && s.dist[cell] <= s.dist[q] <= s.dist[cell] + 1)
    && (forall c | c in s.done :: c in s.dist && s.dist[c] <= s.dist[cell])
    && Queued(s.(done := s.done + {cell}))
  }

  lemma TakeFront(s: Search)
    requires Queued(s) && s.queue != []
    ensures Expanding(s.(queue := s.queue[1..]), s.queue[0])
  {
    var t := s.(queue := s.queue[1..]);
    FrontLeads(s);
    assert forall i | 0 <= i < |t.queue| :: t.queue[i] == s.queue[i + 1];
    assert forall c | c in s.queue :: c == s.queue[0] || c in t.queue;
    assert forall c | c in t.queue :: c in s.queue;
  }

  lemma FrontLeads(s: Search)
    requires Queued(s) && s.queue != []
    ensures forall q | q in s.queue[1..] ::
              q != s.queue[0] && q in s.dist && s.dist[s.queue[0]] <= s.dist[q] <= s.dist[s.queue[0]] + 1
  {
  }

  lemma EnqueueKeepsPlaced(s: Search, n: Cell, d: nat)
    requires Placed(s) && n !in s.dist
    ensures Placed(Found(s, n, d))
  {
    var t := Found(s, n, d);
    assert n == t.queue[|s.queue|];
    assert forall q | q in t.queue :: q in s.queue || q == n;
    assert forall q | q in s.queue :: q in t.queue;
  }

  lemma EnqueueKeepsInLine(s: Search, n: Cell, d: nat)
    requires Placed(s) && InLine(s) && Placed(Found(s, n, d)) && n !in s.dist
    requires forall q | q in s.queue :: s.dist[q] <= d
    ensures InLine(Found(s, n, d))
  {
    assert forall i | 0 <= i < |s.queue| :: s.queue[i] in s.queue;
  }

  lemma EnqueueKeepsNearFront(s: Search, n: Cell, d: nat)
    requires Placed(s) && NearFront(s) && Placed(Found(s, n, d)) && n !in s.dist
    requires forall q | q in s.queue :: s.dist[q] <= d <= s.dist[q] + 1
    requires forall c | c in s.done :: s.dist[c] <= d
    ensures NearFront(Found(s, n, d))
  {
    assert forall q | q in Found(s, n, d).queue :: q in s.queue || q == n;
  }

  /**
   A newly found cell may go to the end of the queue if it is no nearer than any cell before it,
   and by at most one further.
   */
  lemma EnqueueKeepsQueued(s: Search, n: Cell, d: nat)
    requires Queued(s) && n !in s.dist
    requires forall q | q in s.queue :: s.dist[q] <= d <= s.dist[q] + 1
    requires forall c | c in s.done :: s.dist[c] <= d
    ensures Queued(Found(s, n, d))
  {
    EnqueueKeepsPlaced(s, n, d);
    hide Found, InLine, NearFront;
    EnqueueKeepsInLine(s, n, d);
    EnqueueKeepsNearFront(s, n, d);
  }

  lemma FoundKeepsExpanding(s: Search, cell: Cell, n: Cell)
    requires Expanding(s, cell) && n !in s.dist
    ensures Expanding(Found(s, n, s.dist[cell] + 1), cell)
  {
    hide Queued;
    var d := s.dist[cell] + 1;
    EnqueueKeepsQueued(s.(done := s.done + {cell}), n, d);
    assert Found(s.(done := s.done + {cell}), n, d) == Found(s, n, d).(done := s.done + {cell});
    assert forall q | q in Found(s, n, d).queue :: q in s.queue || q == n;
  }

  lemma FoundKeepsTraced(maze: GameMap, from: Cell, dist: map<Cell, nat>, prev: map<Cell, Cell>, cell: Cell, n: Cell)
    requires maze.Valid() && Traced(maze, from, dist, prev)
    requires cell in dist && n !in dist && Move(maze, cell, n)
    ensures Traced(maze, from, dist[n := dist[cell] + 1], prev[n := cell])
  {
  }

  // ---- the flattened arrays ----

  function Idx(maze: GameMap, c: Cell): nat {
    c.y * maze.gridWidth + c.x
  }

  lemma {:induction false} RowsDoNotOverlap(y: nat, y': nat, w: nat)
    ensures y < y' ==> y * w + w <= y' * w
    decreases y'
  {
    if y < y' {
      NextRow(y' - 1, w);
      RowsDoNotOverlap(y, y' - 1, w);
    }
  }

  lemma NextRow(y: nat, w: nat)
    ensures (y + 1) * w == y * w + w
  {
  }

  lemma IdxInRange(maze: GameMap, c: Cell)
    requires maze.InGrid(c)
    ensures Idx(maze, c) < maze.gridWidth * maze.gridHeight
  {
    RowsDoNotOverlap(c.y, maze.gridHeight, maze.gridWidth);
  }

  lemma IdxIsInjective(maze: GameMap, a: Cell, b: Cell)
    requires maze.InGrid(a) && maze.InGrid(b) && Idx(maze, a) == Idx(maze, b)
    ensures a == b
  {
    RowsDoNotOverlap(a.y, b.y, maze.gridWidth);
    RowsDoNotOverlap(b.y, a.y, maze.gridWidth);
  }

  /** The two arrays, read as the found set and the predecessor map. */
  ghost predicate Mirrors(maze: GameMap, seen: seq<bool>, prev: seq<Option<Cell>>,
                          dist: map<Cell, nat>, prevOf: map<Cell, Cell>) {
    && |seen| == maze.gridWidth * maze.gridHeight == |prev|
    && (forall c | maze.InGrid(c) :: Idx(maze, c) < |seen| && (seen[Idx(maze, c)] <==> c in dist))
    && (forall c | maze.InGrid(c) && c in prevOf :: Idx(maze, c) < |prev| && prev[Idx(maze, c)] == Some(prevOf[c]))
  }

  lemma MarkMirrors(maze: GameMap, seen: seq<bool>, prev: seq<Option<Cell>>, dist: map<Cell, nat>,
                    prevOf: map<Cell, Cell>, n: Cell, d: nat, p: Cell)
    requires Mirrors(maze, seen, prev, dist, prevOf) && maze.InGrid(n)
    ensures Idx(maze, n) < |seen| == |prev|
    ensures Mirrors(maze, seen[Idx(maze, n) := true], prev[Idx(maze, n) := Some(p)], dist[n := d], prevOf[n := p])
  {
    IdxInRange(maze, n);
    forall c | maze.InGrid(c) && c != n
      ensures Idx(maze, c) != Idx(maze, n)
    {
      if Idx(maze, c) == Idx(maze, n) {
        IdxIsInjective(maze, c, n);
      }
    }
  }

  lemma StartMirrors(maze: GameMap, seen: seq<bool>, prev: seq<Option<Cell>>, from: Cell)
    requires maze.InGrid(from)
    requires |seen| == maze.gridWidth * maze.gridHeight == |prev|
    requires forall i | 0 <= i < |seen| :: seen[i] <==> i == Idx(maze, from)
    ensures Mirrors(maze, seen, prev, map[from := 0], map[])
  {
    forall c | maze.InGrid(c)
      ensures Idx(maze, c) < |seen| && (seen[Idx(maze, c)] <==> c == from)
    {
      IdxInRange(maze, c);
      if Idx(maze, c) == Idx(maze, from) {
        IdxIsInjective(maze, c, from);
      }
    }
  }

  function AllCells(maze: GameMap): set<Cell> {
    set x, y | 0 <= x < maze.gridWidth && 0 <= y < maze.gridHeight :: Cell(x, y)
  }

  // ---- the search itself ----

  const DIRECTIONS: seq<Direction> := [Up, Down, Left, Right]

  /** What holds between two expansions. */
  ghost predicate Sound(maze: GameMap, from: Cell, s: Search, prevOf: map<Cell, Cell>)
    requires maze.Valid()
  {
    Traced(maze, from, s.dist, prevOf) && Queued(s) && AllExpanded(maze, s)
  }

  /** What holds while `cell` is being expanded and its first `i` directions have been looked at. */
  ghost predicate Halfway(maze: GameMap, from: Cell, cell: Cell, s: Search, prevOf: map<Cell, Cell>, i: nat)
    requires maze.Valid() && i <= |DIRECTIONS|
  {
    Expanding(s, cell) && Looked(maze, from, cell, s, prevOf, i)
  }

  /** The part of `Halfway` that does not concern the queue. */
  ghost predicate Looked(maze: GameMap, from: Cell, cell: Cell, s: Search, prevOf: map<Cell, Cell>, i: nat)
    requires maze.Valid() && i <= |DIRECTIONS|
  {
    && cell in s.dist && Traced(maze, from, s.dist, prevOf)
    && s.done <= s.dist.Keys && AllExpanded(maze, s)
    && forall k | 0 <= k < i :: Expanded(maze, s.dist, cell, DIRECTIONS[k])
  }

  lemma StepIsMove(maze: GameMap, cell: Cell, n: Cell, d: Direction)
    requires maze.Valid() && StepCell(cell, d) == Some(n) && !maze.IsWall(n)
    ensures Move(maze, cell, n)
  {
  }

  lemma FoundKeepsLooking(maze: GameMap, from: Cell, cell: Cell, s: Search, prevOf: map<Cell, Cell>, i: nat, n: Cell)
    requires maze.Valid() && i < |DIRECTIONS| && Looked(maze, from, cell, s, prevOf, i)
    requires StepCell(cell, DIRECTIONS[i]) == Some(n) && !maze.IsWall(n) && n !in s.dist
    ensures Looked(maze, from, cell, Found(s, n, s.dist[cell] + 1), prevOf[n := cell], i + 1)
  {
    hide Traced, AllExpanded, Expanded, Move, GameMap.IsWall, StepCell;
    StepIsMove(maze, cell, n, DIRECTIONS[i]);
    FoundKeepsTraced(maze, from, s.dist, prevOf, cell, n);
    FoundKeepsAllExpanded(maze, s, n, s.dist[cell] + 1);
    FoundKeepsLooked(maze, s, n, s.dist[cell] + 1, cell, i);
  }

  lemma FoundKeepsHalfway(maze: GameMap, from: Cell, cell: Cell, s: Search, prevOf: map<Cell, Cell>, i: nat, n: Cell)
    requires maze.Valid() && i < |DIRECTIONS| && Halfway(maze, from, cell, s, prevOf, i)
    requires StepCell(cell, DIRECTIONS[i]) == Some(n) && !maze.IsWall(n) && n !in s.dist
    ensures Halfway(maze, from, cell, Found(s, n, s.dist[cell] + 1), prevOf[n := cell], i + 1)
  {
    FoundKeepsLooking(maze, from, cell, s, prevOf, i, n);
    FoundKeepsExpanding(s, cell, n);
  }

  /** Nothing to do in this direction: no cell, a wall, or already found. */
  lemma SkipKeepsHalfway(maze: GameMap, from: Cell, cell: Cell, s: Search, prevOf: map<Cell, Cell>, i: nat)
    requires maze.Valid() && i < |DIRECTIONS| && Halfway(maze, from, cell, s, prevOf, i)
    requires var n := StepCell(cell, DIRECTIONS[i]);
             n.None? || maze.IsWall(n.value) || n.value in s.dist
    ensures Halfway(maze, from, cell, s, prevOf, i + 1)
  {
  }

  /** Look at the four neighbours of `cell`, in the program's order. */
  method Expand(maze: GameMap, ghost from: Cell, cell: Cell, queue: seq<Cell>, seen: array<bool>,
                prev: array<Option<Cell>>, ghost s: Search, ghost prevOf: map<Cell, Cell>)
    returns (queue': seq<Cell>, ghost s': Search, ghost prevOf': map<Cell, Cell>)
    requires maze.Valid() && s.queue == queue
    requires Halfway(maze, from, cell, s, prevOf, 0)
    requires Mirrors(maze, seen[..], prev[..], s.dist, prevOf)
    requires seen as object != prev as object
    modifies seen, prev
    ensures s'.queue == queue' && s'.done == s.done
    ensures Mirrors(maze, seen[..], prev[..], s'.dist, prevOf')
    ensures Halfway(maze, from, cell, s', prevOf', |DIRECTIONS|)
  {
    queue', s', prevOf' := queue, s, prevOf;
    var i := 0;
    while i < |DIRECTIONS|
      invariant 0 <= i <= |DIRECTIONS|
      invariant s'.queue == queue' && s'.done == s.done
      invariant Halfway(maze, from, cell, s', prevOf', i)
      invariant Mirrors(maze, seen[..], prev[..], s'.dist, prevOf')
    {
      var step := StepCell(cell, DIRECTIONS[i]);
      if step.Some? && step.value.x < maze.gridWidth && step.value.y < maze.gridHeight
         && !maze.IsWall(step.value) && !IsSeen(maze, seen, step.value)
      {
        var n := step.value;
        MarkMirrors(maze, seen[..], prev[..], s'.dist, prevOf', n, s'.dist[cell] + 1, cell);
        seen[Idx(maze, n)] := true;
        prev[Idx(maze, n)] := Some(cell);
        queue' := queue' + [n];
        FoundKeepsHalfway(maze, from, cell, s', prevOf', i, n);
        s', prevOf' := Found(s', n, s'.dist[cell] + 1), prevOf'[n := cell];
      } else {
        SkipKeepsHalfway(maze, from, cell, s', prevOf', i);
      }
      i := i + 1;
    }
  }

  predicate IsSeen(maze: GameMap, seen: array<bool>, c: Cell)
    requires maze.InGrid(c) && seen.Length == maze.gridWidth * maze.gridHeight
    reads seen
  {
    IdxInRange(maze, c);
    seen[Idx(maze, c)]
  }

  lemma FoundKeepsAllExpanded(maze: GameMap, s: Search, n: Cell, d: nat)
    requires maze.Valid() && s.done <= s.dist.Keys && AllExpanded(maze, s) && n !in s.dist
    ensures s.done <= Found(s, n, d).dist.Keys && AllExpanded(maze, Found(s, n, d))
  {
    forall c, dir | c in s.done
      ensures Expanded(maze, Found(s, n, d).dist, c, dir)
    {
      assert Expanded(maze, s.dist, c, dir);
    }
  }

  lemma FoundKeepsLooked(maze: GameMap, s: Search, n: Cell, d: nat, cell: Cell, i: nat)
    requires maze.Valid() && cell in s.dist && n !in s.dist && i < |DIRECTIONS|
    requires d == s.dist[cell] + 1 && StepCell(cell, DIRECTIONS[i]) == Some(n)
    requires forall k | 0 <= k < i :: Expanded(maze, s.dist, cell, DIRECTIONS[k])
    ensures forall k | 0 <= k <= i :: Expanded(maze, Found(s, n, d).dist, cell, DIRECTIONS[k])
  {
  }

  lemma FinishExpansion(maze: GameMap, s: Search, cell: Cell)
    requires maze.Valid() && s.done <= s.dist.Keys && AllExpanded(maze, s) && Expanding(s, cell)
    requires forall k | 0 <= k < |DIRECTIONS| :: Expanded(maze, s.dist, cell, DIRECTIONS[k])
    ensures Queued(s.(done := s.done + {cell})) && AllExpanded(maze, s.(done := s.done + {cell}))
  {
    forall c, d | c in s.done + {cell}
      ensures Expanded(maze, s.dist, c, d)
    {
      if c == cell {
        var k := match d case Up => 0 case Down => 1 case Left => 2 case Right => 3;
        assert DIRECTIONS[k] == d && Expanded(maze, s.dist, cell, DIRECTIONS[k]);
      } else {
        assert Expanded(maze, s.dist, c, d);
      }
    }
  }

  lemma ExtendRoute(maze: GameMap, p: Cell, cur: Cell, route: seq<Cell>)
    requires maze.Valid() && Route(maze, cur, route) && Move(maze, p, cur)
    ensures Route(maze, p, route + [cur])
  {
    forall i | 0 <= i < |route + [cur]|
      ensures Leg(maze, p, route + [cur], i)
    {
      if i < |route| {
        assert Leg(maze, cur, route, i);
      }
    }
  }

  /** Follow the predecessors back from the target; a missing predecessor cannot be met. */
  method Rebuild(maze: GameMap, from: Cell, to: Cell, prev: array<Option<Cell>>, ghost dist: map<Cell, nat>,
                 ghost prevOf: map<Cell, Cell>)
    returns (path: seq<Cell>)
    requires maze.Valid() && Traced(maze, from, dist, prevOf) && to in dist && from != to
    requires prev.Length == maze.gridWidth * maze.gridHeight
    requires forall c | maze.InGrid(c) && c in prevOf ::
               Idx(maze, c) < prev.Length && prev[Idx(maze, c)] == Some(prevOf[c])
    ensures |path| == dist[to] && path != [] && path[0] == to && Route(maze, from, path)
  {
    path := [];
    var cur := to;
    while cur != from
      invariant cur in dist && |path| + dist[cur] == dist[to]
      invariant path == [] ==> cur == to
      invariant path != [] ==> path[0] == to
      invariant Route(maze, cur, path)
      decreases dist[cur]
    {
      ExtendRoute(maze, prevOf[cur], cur, path);
      path := path + [cur];
      match prev[Idx(maze, cur)] {
        case Some(p) => cur := p;
        case None => assert false;
      }
    }
  }

  lemma BeginExpansion(maze: GameMap, from: Cell, s: Search, prevOf: map<Cell, Cell>)
    requires maze.Valid() && Sound(maze, from, s, prevOf) && s.queue != []
    ensures Halfway(maze, from, s.queue[0], s.(queue := s.queue[1..]), prevOf, 0)
    ensures s.queue[0] in AllCells(maze) - s.done
  {
    TakeFront(s);
    assert maze.InGrid(s.queue[0]);
  }

  lemma EndExpansion(maze: GameMap, from: Cell, cell: Cell, s: Search, prevOf: map<Cell, Cell>)
    requires maze.Valid() && Halfway(maze, from, cell, s, prevOf, |DIRECTIONS|)
    ensures Sound(maze, from, s.(done := s.done + {cell}), prevOf)
  {
    FinishExpansion(maze, s, cell);
  }

  lemma FoundIsShortest(maze: GameMap, from: Cell, s: Search, prevOf: map<Cell, Cell>)
    requires maze.Valid() && Sound(maze, from, s, prevOf) && s.queue != []
    ensures forall walk | Connects(maze, walk, from, s.queue[0]) :: s.dist[s.queue[0]] <= |walk| - 1
  {
    forall walk | Connects(maze, walk, from, s.queue[0])
      ensures s.dist[s.queue[0]] <= |walk| - 1
    {
      FrontIsNearest(maze, s, from, walk);
    }
  }

  lemma NotFoundIsUnreachable(maze: GameMap, from: Cell, to: Cell, s: Search, prevOf: map<Cell, Cell>)
    requires maze.Valid() && Sound(maze, from, s, prevOf) && s.queue == [] && to !in s.done
    ensures forall walk :: !Connects(maze, walk, from, to)
  {
    forall walk
      ensures !Connects(maze, walk, from, to)
    {
      if Connects(maze, walk, from, to) {
        ExhaustedMeansUnreachable(maze, s, from, walk, |walk| - 1);
      }
    }
  }

  /** The loop of the search, up to the target or to an empty queue. */
  method SearchFrom(maze: GameMap, from: Cell, to: Cell, prev: array<Option<Cell>>, seen: array<bool>)
    returns (found: bool, ghost s: Search, ghost prevOf: map<Cell, Cell>)
    requires maze.Valid() && maze.InGrid(from) && from != to
    requires seen as object != prev as object
    requires seen.Length == prev.Length == maze.gridWidth * maze.gridHeight
    requires forall i | 0 <= i < seen.Length :: !seen[i]
    modifies seen, prev
    ensures Sound(maze, from, s, prevOf) && to !in s.done
    ensures Mirrors(maze, seen[..], prev[..], s.dist, prevOf)
    ensures if found then s.queue != [] && s.queue[0] == to else s.queue == []
  {
    var queue: seq<Cell> := [from];
    s, prevOf := Search(map[from := 0], {}, [from]), map[];
    IdxInRange(maze, from);
    seen[Idx(maze, from)] := true;
    StartMirrors(maze, seen[..], prev[..], from);
    while queue != []
      invariant s.queue == queue && to !in s.done
      invariant Sound(maze, from, s, prevOf)
      invariant Mirrors(maze, seen[..], prev[..], s.dist, prevOf)
      decreases AllCells(maze) - s.done
    {
      var cell := queue[0];
      if cell == to {
        return true, s, prevOf;
      }
      BeginExpansion(maze, from, s, prevOf);
      queue := queue[1..];
      s := s.(queue := queue);
      queue, s, prevOf := Expand(maze, from, cell, queue, seen, prev, s, prevOf);
      EndExpansion(maze, from, cell, s, prevOf);
      s := s.(done := s.done + {cell});
    }
    return false, s, prevOf;
  }

  /**
   The bot's path search. The result is empty exactly when there is nothing to walk;
   otherwise it is a route, and no walk to the target is shorter.
   */
  method BfsPath(maze: GameMap, fromPos: Position, toPos: Position) returns (path: seq<Cell>)
    requires maze.Valid()
    ensures var from, to := maze.PosToGrid(fromPos), maze.PosToGrid(toPos);
            path == [] <==> from == to || maze.IsWall(to) || forall walk :: !Connects(maze, walk, from, to)
    ensures var from, to := maze.PosToGrid(fromPos), maze.PosToGrid(toPos);
            path != [] ==>
              && path[0] == to && Route(maze, from, path)
              && forall walk | Connects(maze, walk, from, to) :: |path| <= |walk| - 1
  {
    var from := maze.PosToGrid(fromPos);
    var to := maze.PosToGrid(toPos);
    if from == to || maze.IsWall(to) {
      return [];
    }
    var prev := new Option<Cell>[maze.gridWidth * maze.gridHeight](_ => None);
    var seen := new bool[maze.gridWidth * maze.gridHeight](_ => false);
    var found;
    ghost var s, prevOf;
    found, s, prevOf := SearchFrom(maze, from, to, prev, seen);
    if !found {
      NotFoundIsUnreachable(maze, from, to, s, prevOf);
      return [];
    }
    FoundIsShortest(maze, from, s, prevOf);
    path := Rebuild(maze, from, to, prev, s.dist, prevOf);
    RouteIsAWalk(maze, from, path);
  }

  function Forward(from: Cell, route: seq<Cell>): (walk: seq<Cell>)
    ensures |walk| == |route| + 1
  {
    seq(|route| + 1, k requires 0 <= k <= |route| => if k == 0 then from else route[|route| - k])
  }

  /** Read from its end, a route is a walk from the start to the target. */
  lemma RouteIsAWalk(maze: GameMap, from: Cell, route: seq<Cell>)
    requires maze.Valid() && Route(maze, from, route) && route != []
    ensures Connects(maze, Forward(from, route), from, route[0])
  {
    var walk := Forward(from, route);
    forall i | 0 < i < |walk|
      ensures Move(maze, walk[i - 1], walk[i])
    {
      assert Leg(maze, from, route, |route| - i);
    }
  }
}
