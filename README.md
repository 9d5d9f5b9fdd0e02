# Tilt maze: movement resolver

This project models the movement logic of a small maze game driven by a
gyroscope. The game generates a grid maze once. It keeps a single player
position, which starts at the top-left cell. Each gyroscope sample gives two
tilt readings, and the game turns each sample into at most one step through
the maze:

- **Noise gate.** The sample is ignored when both readings have a magnitude
  below 0.4.
- **Dominant axis.** The horizontal axis is tried only when its magnitude is
  strictly larger than the vertical one. Otherwise the vertical axis is tried.
- **Wall check.** The player moves one cell in the sign of that reading, but
  only if the current cell's wall flag on that side is `false`.
- **Clamp.** Both coordinates are clamped into the grid.

`tilt_maze.dfy` (module `TiltMaze`) contains:

- the cell, position and sample values;
- `Resolve`, a pure reference definition of one sample's effect, with the
  properties the game relies on;
- `Run`, which applies `Resolve` to a stream of samples;
- class `Player`, whose `OnTilt` method follows the handler statement by
  statement. Its postcondition ties it to `Resolve`.

The grid dimensions, which are fixed at 10 × 10 in the game, are parameters
here and must be positive. The maze is a read-only (`const`) field, so no
sample can change it. Tilt readings are `real` numbers.

## Model

| member | source | states |
|---|---|---|
| TiltMaze.Abs | src/App.tsx:96-97 | the magnitude of a reading is non-negative and is the reading or its negation |
| TiltMaze.CellAt | src/App.tsx:105 | the cell consulted is the one in row `y`, column `x` of the maze (indexed `[y][x]`), and it exists for every in-bounds position of a well-formed maze |
| TiltMaze.Significant | src/App.tsx:99 | a sample passes the gate exactly when some reading is at or beyond ±0.4, so a reading of exactly 0.4 passes |
| TiltMaze.Horizontal | src/App.tsx:107 | the horizontal axis is chosen exactly when x lies strictly beyond both diagonals x = y and x = -y; a tie in magnitude goes to the vertical axis |
| TiltMaze.Wanted | src/App.tsx:107-113 | before walls are consulted, a sample asks for right or left exactly when the horizontal axis dominates and x is positive or negative, and for up or down exactly when it does not and y is negative or positive |
| TiltMaze.Open | src/App.tsx:108-112 | each move is let through by exactly the wall flag on its own side (`right`, `left`, `top`, `bottom`) being false; staying opens nothing |
| TiltMaze.Attempt | src/App.tsx:107-113 | each of the four moves happens exactly when its axis dominates (horizontal only when \|x\| > \|y\| strictly), its reading has that sign, and that side of the cell is open |
| TiltMaze.DeltaX | src/App.tsx:108-109 | the column grows by one exactly on a move right and shrinks by one exactly on a move left; every other move keeps it |
| TiltMaze.DeltaY | src/App.tsx:111-112 | the row shrinks by one exactly on a move up and grows by one exactly on a move down; every other move keeps it |
| TiltMaze.Clamp | src/App.tsx:115-119 | the clamped coordinate lies in [0, n-1], equals the input when the input is already in range, and goes to the nearer end otherwise |
| TiltMaze.Resolve | src/App.tsx:96-124 | the new position is inside the grid; a sample below the noise gate leaves the position unchanged; at most one coordinate changes, by at most 1; only x can change on a horizontal sample, and only y otherwise |
| TiltMaze.ResolveSteps | src/App.tsx:99-119 | each of the four single-cell steps happens if and only if the sample passes the gate, picks that axis, tilts that way, finds that side of the current cell `maze[y][x]` open, and the neighbour is inside the grid |
| TiltMaze.GateConsultsOneWall | src/App.tsx:99-113 | a sample that passes the gate always asks for a direction, and it moves out of the cell exactly when the one wall flag on that side is clear |
| TiltMaze.EdgeStepClamped | src/App.tsx:108-119 | a rightward step from the last column through an open right side is clamped back, so the position does not change |
| TiltMaze.SingleCellNeverMoves | src/App.tsx:107-119 | on a 1×1 grid every sample leaves the player at (0,0) |
| TiltMaze.OpenRightBlockedBottom | src/App.tsx:105-113 | from (0,0) with the right side open and the bottom walled, sample (0.6, 0.1) moves to (1,0) and sample (0.1, 0.6) stays at (0,0) |
| TiltMaze.Run | src/App.tsx:74-76 | starting from any in-bounds position (the game starts at (0,0)), any stream of samples keeps the position in bounds, so the cell lookup `maze[y][x]` is always a valid index |
| TiltMaze.QuietRunStays | src/App.tsx:99 | a stream of samples that are all below the noise gate never moves the player |
| TiltMaze.RightwardRunMonotone | src/App.tsx:107-119 | under samples that all tilt right on the dominant axis, the player stays on its row and its x never decreases |
| TiltMaze.RightWallHolds | src/App.tsx:105-108 | if the current cell has a right wall, no stream of rightward-dominant samples moves the player at all |
| TiltMaze.Player.constructor | src/App.tsx:74-80 | a new game holds the given maze and dimensions and the player starts at (0,0), inside the grid |
| TiltMaze.Player.OnTilt | src/App.tsx:96-124 | the handler's imperative gate, wall check and clamps store exactly `Resolve` of the old position; the position stays in bounds and the maze is unchanged |

## Left out

- Maze generation: `generateMaze` comes from the external `generate-maze-ts` package, whose code is not part of this model. The maze is any grid of the given dimensions. As a result, the spanning-tree, wall-symmetry and closed-boundary properties are not assumed or proved.
- Gyroscope I/O: starting the sensor, subscribing and unsubscribing the handler, and dispatching on the event type (src/App.tsx:86-92, 129-131). This is platform plumbing. Samples are parameters of `OnTilt`.
- Payload parsing: the `parseFloat` of the event data and the swap of its x and y fields (src/App.tsx:93-94). The model starts from two readings that are already parsed.
- Floating point: readings are exact reals. The 0.4 threshold is taken as exactly 2/5. NaN and rounding are not modelled.
- An out-of-grid position: from such a position the handler throws on any sample that passes the gate. It fails at the row lookup on line 105 when `y` is out of range, and at the wall read on lines 108-112 when only `x` is. The model requires an in-bounds position (`Player.Valid()`). Every operation keeps that true, starting from (0,0).
- Wall flag names: the handler reads the wall flags through the `Direction` enum of the external maze package (src/App.tsx:3, 108-112). The model takes `cell[Direction.right]` and the other three reads to be the cell's `right`, `left`, `top` and `bottom` flags.
- Stale position between renders: the handler reads the position from `posRef.current`, which is refreshed only when the component re-renders (src/App.tsx:75-76), not by `setPos`. Two samples handled before one re-render would both start from the same position. `Run` and `Player.OnTilt` instead apply each sample to the result of the previous one.
- Rendering: styled components, the display-only `Math.min(x + 1, width)`, and the debug log and `console.log` (src/App.tsx:6-68, 82-84, 100, 134-151).
- React hooks (`useState`, `useRef`, `useMemo`, `useEffect`): they are modelled only as a fixed maze and one mutable position held by `Player`.
