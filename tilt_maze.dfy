/**
 * The tilt-to-step movement resolver of a gyroscope-driven maze game.
 *
 * A maze is a fixed grid of cells, each with four wall flags (`true` means the
 * side is walled).  The player occupies one cell.  Each gyroscope sample,
 * already parsed into two real readings, is resolved into at most one step:
 * a noise gate, a choice of dominant axis, a wall check on the current cell
 * and a final clamp into the grid.
 */
module TiltMaze {

  /** The four wall flags of one cell (the `Directions` record of the game). */
  datatype Cell = Cell(top: bool, right: bool, bottom: bool, left: bool)

  /** A grid position: column `x`, row `y`. */
  datatype Pos = Pos(x: int, y: int)

  /** One parsed gyroscope sample: the horizontal and the vertical reading. */
  datatype Tilt = Tilt(x: real, y: real)

  /** The single direction a sample asks for after the wall check, or none. */
  datatype Move = Stay | Right | Left | Up | Down

  /** The maze, indexed `[y][x]`. */
  type Maze = seq<seq<Cell>>

  /** Readings whose magnitudes are both below this are ignored as noise. */
  const NoiseGate: real := 0.4

  /** The player's starting cell. */
  const Origin: Pos := Pos(0, 0)

  /** A maze of `height` rows of `width` cells each, both dimensions positive. */
  ghost predicate WellFormed(maze: Maze, width: int, height: int)
  {
    0 < width && 0 < height && |maze| == height &&
    forall row :: row in maze ==> |row| == width
  }

  predicate InBounds(p: Pos, width: int, height: int)
  {
    0 <= p.x < width && 0 <= p.y < height
  }

  /** The cell the player stands on, looked up as `maze[p.y][p.x]`. */
  function CellAt(maze: Maze, width: int, height: int, p: Pos): (c: Cell)
    requires WellFormed(maze, width, height) && InBounds(p, width, height)
    ensures c == maze[p.y][p.x]
  {
    assert maze[p.y] in maze;
    maze[p.y][p.x]
  }

  /** Magnitude of a reading. */
  function Abs(r: real): (a: real)
    ensures 0.0 <= a
    ensures a == r || a == -r
  {
    if r < 0.0 then -r else r
  }

  /** The sample passes the noise gate: at least one reading reaches the threshold. */
  predicate Significant(t: Tilt)
    ensures Significant(t) <==>
      t.x <= -NoiseGate || NoiseGate <= t.x || t.y <= -NoiseGate || NoiseGate <= t.y
  {
    Abs(t.x) >= NoiseGate || Abs(t.y) >= NoiseGate
  }

  /** The horizontal axis dominates strictly; a tie goes to the vertical axis. */
  predicate Horizontal(t: Tilt)
    ensures Horizontal(t) <==> (t.x > t.y && t.x > -t.y) || (t.x < t.y && t.x < -t.y)
    ensures Abs(t.x) == Abs(t.y) ==> !Horizontal(t)
  {
    Abs(t.x) > Abs(t.y)
  }

  /**
   * The direction a sample asks for before any wall is consulted: the sign of
   * the reading on the dominant axis.
   */
  function Wanted(t: Tilt): (m: Move)
    ensures m == Right <==> Horizontal(t) && t.x > 0.0
    ensures m == Left <==> Horizontal(t) && t.x < 0.0
    ensures m == Up <==> !Horizontal(t) && t.y < 0.0
    ensures m == Down <==> !Horizontal(t) && t.y > 0.0
  {
    if Horizontal(t) then
      if t.x > 0.0 then Right else if t.x < 0.0 then Left else Stay
    else
      if t.y < 0.0 then Up else if t.y > 0.0 then Down else Stay
  }

  /** The wall flag of `c` on the side `m` leads through is clear. */
  function Open(c: Cell, m: Move): (b: bool)
    ensures m == Stay ==> !b
    ensures m == Right ==> (b <==> !c.right)
    ensures m == Left ==> (b <==> !c.left)
    ensures m == Up ==> (b <==> !c.top)
    ensures m == Down ==> (b <==> !c.bottom)
  {
    match m
    case Stay => false
    case Right => !c.right
    case Left => !c.left
    case Up => !c.top
    case Down => !c.bottom
  }

  /**
   * The direction a sample moves the player out of cell `c`: only the dominant
   * axis is tried, in the sign of its reading, and only through an open side.
   */
  function Attempt(c: Cell, t: Tilt): (m: Move)
    ensures m == Right <==> Horizontal(t) && t.x > 0.0 && !c.right
    ensures m == Left <==> Horizontal(t) && t.x < 0.0 && !c.left
    ensures m == Up <==> !Horizontal(t) && t.y < 0.0 && !c.top
    ensures m == Down <==> !Horizontal(t) && t.y > 0.0 && !c.bottom
  {
    if Horizontal(t) then
      if t.x > 0.0 && !c.right then Right
      else if t.x < 0.0 && !c.left then Left
      else Stay
    else
      if t.y < 0.0 && !c.top then Up
      else if t.y > 0.0 && !c.bottom then Down
      else Stay
  }

  /** The column offset of a move: one to the right, one to the left, or none. */
  function DeltaX(m: Move): (d: int)
    ensures d == 1 <==> m == Right
    ensures d == -1 <==> m == Left
    ensures d == 0 <==> m != Right && m != Left
  {
    match m
    case Right => 1
    case Left => -1
    case _ => 0
  }

  /** The row offset of a move: rows grow downwards, so `Down` adds one. */
  function DeltaY(m: Move): (d: int)
    ensures d == 1 <==> m == Down
    ensures d == -1 <==> m == Up
    ensures d == 0 <==> m != Down && m != Up
  {
    match m
    case Down => 1
    case Up => -1
    case _ => 0
  }

  /** The coordinate `v` brought into `[0, n - 1]`. */
  function Clamp(v: int, n: int): (c: int)
    requires 0 < n
    ensures 0 <= c < n
    ensures 0 <= v < n ==> c == v
    ensures v < 0 ==> c == 0
    ensures n <= v ==> c == n - 1
  {
    if v < 0 then 0 else if v >= n then n - 1 else v
  }

  /**
   * The position after one sample: unchanged when the sample is noise,
   * otherwise one step in the attempted direction, clamped into the grid.
   */
  function Resolve(maze: Maze, width: int, height: int, p: Pos, t: Tilt): (q: Pos)
    requires WellFormed(maze, width, height) && InBounds(p, width, height)
    ensures InBounds(q, width, height)
    ensures !Significant(t) ==> q == p
    ensures q.x == p.x || q.y == p.y
    ensures -1 <= q.x - p.x <= 1 && -1 <= q.y - p.y <= 1
    ensures Horizontal(t) ==> q.y == p.y
    ensures !Horizontal(t) ==> q.x == p.x
  {
    if !Significant(t) then p
    else
      var m := Attempt(CellAt(maze, width, height, p), t);
      Pos(Clamp(p.x + DeltaX(m), width), Clamp(p.y + DeltaY(m), height))
  }

  /**
   * Exactly when each of the four steps happens: the sample must pass the
   * gate, pick that axis, tilt that way, find that side of the current cell
   * open, and the neighbouring cell must lie inside the grid.
   */
  lemma ResolveSteps(maze: Maze, width: int, height: int, p: Pos, t: Tilt)
    requires WellFormed(maze, width, height) && InBounds(p, width, height)
    ensures var c := CellAt(maze, width, height, p);
      Resolve(maze, width, height, p, t) == Pos(p.x + 1, p.y) <==>
      Significant(t) && Horizontal(t) && t.x > 0.0 && !c.right && p.x + 1 < width
    ensures var c := CellAt(maze, width, height, p);
      Resolve(maze, width, height, p, t) == Pos(p.x - 1, p.y) <==>
      Significant(t) && Horizontal(t) && t.x < 0.0 && !c.left && 0 < p.x
    ensures var c := CellAt(maze, width, height, p);
      Resolve(maze, width, height, p, t) == Pos(p.x, p.y - 1) <==>
      Significant(t) && !Horizontal(t) && t.y < 0.0 && !c.top && 0 < p.y
    ensures var c := CellAt(maze, width, height, p);
      Resolve(maze, width, height, p, t) == Pos(p.x, p.y + 1) <==>
      Significant(t) && !Horizontal(t) && t.y > 0.0 && !c.bottom && p.y + 1 < height
  {
  }

  /**
   * A sample that passes the gate always asks for a direction, and whether it
   * moves depends on exactly one wall flag of the current cell: the one on
   * the side it asks for.
   */
  lemma GateConsultsOneWall(c: Cell, t: Tilt)
    requires Significant(t)
    ensures Wanted(t) != Stay
    ensures Attempt(c, t) == if Open(c, Wanted(t)) then Wanted(t) else Stay
  {
  }

  /**
   * A step through an open side that would leave the grid is clamped back:
   * the position stays where it was.
   */
  lemma EdgeStepClamped(maze: Maze, width: int, height: int, p: Pos, t: Tilt)
    requires WellFormed(maze, width, height) && InBounds(p, width, height)
    requires Significant(t) && Horizontal(t) && t.x > 0.0
    requires !CellAt(maze, width, height, p).right && p.x == width - 1
    ensures Resolve(maze, width, height, p, t) == p
  {
  }

  /** On a one-cell grid every sample leaves the player at the origin. */
  lemma SingleCellNeverMoves(maze: Maze, t: Tilt)
    requires WellFormed(maze, 1, 1)
    ensures Resolve(maze, 1, 1, Origin, t) == Origin
  {
  }

  /**
   * From the origin, with the right side open and the bottom side walled, a
   * rightward sample moves one cell right and a downward one is blocked.
   */
  lemma OpenRightBlockedBottom(maze: Maze, width: int, height: int)
    requires WellFormed(maze, width, height) && 2 <= width
    requires !maze[0][0].right && maze[0][0].bottom
    ensures Resolve(maze, width, height, Origin, Tilt(0.6, 0.1)) == Pos(1, 0)
    ensures Resolve(maze, width, height, Origin, Tilt(0.1, 0.6)) == Origin
  {
  }

  /** The position after a stream of samples, resolved one at a time in order. */
  function Run(maze: Maze, width: int, height: int, p: Pos, samples: seq<Tilt>): (q: Pos)
    requires WellFormed(maze, width, height) && InBounds(p, width, height)
    ensures InBounds(q, width, height)
    decreases |samples|
  {
    if samples == [] then p
    else Run(maze, width, height, Resolve(maze, width, height, p, samples[0]), samples[1..])
  }

  /** A stream of noise never moves the player. */
  lemma {:induction false} QuietRunStays(maze: Maze, width: int, height: int, p: Pos, samples: seq<Tilt>)
    requires WellFormed(maze, width, height) && InBounds(p, width, height)
    requires forall i :: 0 <= i < |samples| ==> !Significant(samples[i])
    ensures Run(maze, width, height, p, samples) == p
    decreases |samples|
  {
    if samples != [] {
      QuietRunStays(maze, width, height, p, samples[1..]);
    }
  }

  /**
   * Under a stream of samples that all tilt right along the dominant axis,
   * the player stays on its row and never moves left.
   */
  lemma {:induction false} RightwardRunMonotone(maze: Maze, width: int, height: int, p: Pos, samples: seq<Tilt>)
    requires WellFormed(maze, width, height) && InBounds(p, width, height)
    requires forall i :: 0 <= i < |samples| ==> Horizontal(samples[i]) && samples[i].x > 0.0
    ensures Run(maze, width, height, p, samples).y == p.y
    ensures Run(maze, width, height, p, samples).x >= p.x
    decreases |samples|
  {
    if samples != [] {
      var p' := Resolve(maze, width, height, p, samples[0]);
      ResolveSteps(maze, width, height, p, samples[0]);
      RightwardRunMonotone(maze, width, height, p', samples[1..]);
    }
  }

  /**
   * A wall on the right of the player's cell holds against any stream of
   * rightward-dominant samples: the player never moves at all.
   */
  lemma {:induction false} RightWallHolds(maze: Maze, width: int, height: int, p: Pos, samples: seq<Tilt>)
    requires WellFormed(maze, width, height) && InBounds(p, width, height)
    requires CellAt(maze, width, height, p).right
    requires forall i :: 0 <= i < |samples| ==> Horizontal(samples[i]) && samples[i].x > 0.0
    ensures Run(maze, width, height, p, samples) == p
    decreases |samples|
  {
    if samples != [] {
      assert Resolve(maze, width, height, p, samples[0]) == p;
      RightWallHolds(maze, width, height, p, samples[1..]);
    }
  }

  /**
   * The game's player: a read-only maze of fixed dimensions and one mutable
   * position, moved by each gyroscope sample.
   */
  class Player {
    const maze: Maze
    const width: int
    const height: int
    var x: int
    var y: int

    /** The maze has the declared shape and the player stands inside it. */
    ghost predicate Valid()
      reads this
    {
      WellFormed(maze, width, height) && InBounds(Pos(x, y), width, height)
    }

    function Position(): Pos
      reads this
    {
      Pos(x, y)
    }

    /** A new game over `maze`: the player starts at the origin. */
    constructor (maze: Maze, width: int, height: int)
      requires WellFormed(maze, width, height)
      ensures Valid()
      ensures this.maze == maze && this.width == width && this.height == height
      ensures Position() == Origin
    {
      this.maze := maze;
      this.width := width;
      this.height := height;
      x, y := 0, 0;
    }

    /**
     * Handles one gyroscope sample: gate, dominant axis, wall check on the
     * current cell, clamp, then store the new position.
     */
    method OnTilt(t: Tilt)
      requires Valid()
      modifies this
      ensures Valid()
      ensures Position() == Resolve(maze, width, height, old(Position()), t)
    {
      var absX := Abs(t.x);
      var absY := Abs(t.y);
      if absX >= NoiseGate || absY >= NoiseGate {
        var posX := x;
        var posY := y;
        assert maze[y] in maze;
        var cell := maze[y][x];
        if absX > absY {
          if t.x > 0.0 && !cell.right {
            posX := posX + 1;
          } else if t.x < 0.0 && !cell.left {
            posX := posX - 1;
          }
        } else {
          if t.y < 0.0 && !cell.top {
            posY := posY - 1;
          } else if t.y > 0.0 && !cell.bottom {
            posY := posY + 1;
          }
        }
        if posY < 0 { posY := 0; }
        if posY >= height { posY := height - 1; }
        if posX < 0 { posX := 0; }
        if posX >= width { posX := width - 1; }
        x, y := posX, posY;
      }
    }
  }
}
