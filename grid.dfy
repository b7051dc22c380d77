/** The shared geometry of the class-based engine: the constants and globals
    of js/script.js, the tile codes the objects compare against, grid cells,
    the four movement directions and JavaScript's Math.round / Math.floor on
    pixel coordinates.  Pixel coordinates, speeds and times are JavaScript
    numbers; they are modelled as `real` (exact, without rounding). */
module Grid {

  datatype Option<T> = None | Some(value: T)

  /** Pixel size of one tile and the canvas size (js/script.js). */
  const GRID_SIZE: real := 32.0
  const CANVAS_WIDTH: int := 800
  const CANVAS_HEIGHT: int := 600
  /** Math.floor(CANVAS_WIDTH / GRID_SIZE) and Math.floor(CANVAS_HEIGHT / GRID_SIZE). */
  const GRID_WIDTH: int := CANVAS_WIDTH / 32
  const GRID_HEIGHT: int := CANVAS_HEIGHT / 32

  /** Tile codes stored in the grid. */
  const FLOOR: int := 0
  const WALL: int := 1
  const DESTRUCTIBLE: int := 2

  type TileGrid = seq<seq<int>>

  datatype Cell = Cell(x: int, y: int)

  datatype Dir = Up | Down | Left | Right {
    function DX(): int { match this case Left => -1 case Right => 1 case _ => 0 }
    function DY(): int { match this case Up => -1 case Down => 1 case _ => 0 }
    /** The direction that undoes this one. */
    function Reverse(): (r: Dir)
      ensures r.DX() == -DX() && r.DY() == -DY() && r != this
    {
      match this case Up => Down case Down => Up case Left => Right case Right => Left
    }
  }

  /** The order in which the source lists directions: up, down, left, right. */
  const DIRECTIONS: seq<Dir> := [Up, Down, Left, Right]

  /** The cell `i` steps away from `c` in direction `d`. */
  function Step(c: Cell, d: Dir, i: int): Cell {
    match d
    case Up => Cell(c.x, c.y - i)
    case Down => Cell(c.x, c.y + i)
    case Left => Cell(c.x - i, c.y)
    case Right => Cell(c.x + i, c.y)
  }

  /** JavaScript's Math.round: the nearest integer, halves rounded up. */
  function Round(v: real): (r: int)
    ensures v - 0.5 < r as real <= v + 0.5
  {
    (v + 0.5).Floor
  }

  /** Math.round(p / GRID_SIZE): the grid index of a pixel coordinate. */
  function CellIndex(p: real): int {
    Round(p / GRID_SIZE)
  }

  /** The pixel coordinate of the corner of grid index `i`. */
  function Pixel(i: int): real {
    i as real * GRID_SIZE
  }

  lemma CellIndexOfPixel(i: int)
    ensures CellIndex(Pixel(i)) == i
  {
  }

  /** max(n, 0) */
  function Max0(n: int): (r: nat)
    ensures r >= n && (n >= 0 ==> r == n)
  {
    if n < 0 then 0 else n
  }

  /** Math.floor(p / GRID_SIZE): the grid index of the tile a pixel lies in. */
  function FloorIndex(p: real): int {
    (p / GRID_SIZE).Floor
  }

  /** Every pixel of tile `i` floors to `i`. */
  lemma FloorIndexInTile(i: int, p: real)
    requires Pixel(i) <= p < Pixel(i + 1)
    ensures FloorIndex(p) == i
  {
  }

  /** A pixel position whose nearest cell (and every cell it moves between) is on the grid. */
  predicate OnGridPixels(px: real, py: real) {
    0.0 <= px <= Pixel(GRID_WIDTH - 1) && 0.0 <= py <= Pixel(GRID_HEIGHT - 1)
  }

  lemma CellOfOnGridPixels(px: real, py: real)
    requires OnGridPixels(px, py)
    ensures InBounds(CellIndex(px), CellIndex(py))
    ensures OnGridPixels(Pixel(CellIndex(px)), Pixel(CellIndex(py)))
  {
  }

  predicate WellFormed(g: TileGrid) {
    |g| == GRID_HEIGHT && forall y :: 0 <= y < |g| ==> |g[y]| == GRID_WIDTH
  }

  predicate InBounds(x: int, y: int) {
    0 <= x < GRID_WIDTH && 0 <= y < GRID_HEIGHT
  }

  function TileAt(g: TileGrid, c: Cell): int
    requires WellFormed(g) && InBounds(c.x, c.y)
  {
    g[c.y][c.x]
  }

  /** Player.canMoveTo / Enemy.canMoveTo: the target is on the grid and floor. */
  function CanMoveTo(g: TileGrid, x: int, y: int): (r: bool)
    requires WellFormed(g)
    ensures r <==> InBounds(x, y) && g[y][x] == FLOOR
  {
    if x < 0 || x >= GRID_WIDTH || y < 0 || y >= GRID_HEIGHT then false
    else g[y][x] == FLOOR
  }

  /** `grid[y][x] = v`. */
  function SetTile(g: TileGrid, x: int, y: int, v: int): (r: TileGrid)
    requires WellFormed(g) && InBounds(x, y)
    ensures WellFormed(r) && r[y][x] == v
    ensures forall j, i :: 0 <= j < GRID_HEIGHT && 0 <= i < GRID_WIDTH && (j != y || i != x) ==> r[j][i] == g[j][i]
  {
    g[y := g[y][x := v]]
  }
}
