/** Reference definitions for the class-based Level (js/game_objects/level.js):
    the grid initializeGrid leaves, the enemies addEnemies places, the
    powerups destroyBlock drops and what checkPowerupCollisions picks up.

    Math.random is replaced by oracles fixed when the level is made: one
    draw per cell for the 40% block chance (`blocks`), one triple per
    addEnemies attempt (`rolls`: column, row and type) and one draw per cell
    for destroyBlock (`drops`: None when the 30% chance fails, Some(k) for
    type k % 3 otherwise).  A cell is destroyed at most once, since no code
    turns a tile back into a destructible block, so one draw per cell is as
    general as the source's sequence of draws. */
module LevelSpec {
  import opened Grid
  import opened PlayerEntity

  /** A powerup lying on the level (js/game_objects/powerup.js): the pixel
      corner of its cell and its type. */
  datatype Powerup = Powerup(x: real, y: real, kind: string)

  const POWERUP_TYPES: seq<string> := ["speed", "bomb", "range"]
  const ENEMY_TYPES: seq<string> := ["skeleton", "ghost", "demon"]
  /** addEnemies gives up after this many attempts. */
  const MAX_ATTEMPTS: nat := 100
  /** initializeGrid asks for this many enemies. */
  const START_ENEMIES: nat := 5

  // ---------------------------------------------------------------------------
  // initializeGrid

  predicate IsBorder(x: int, y: int) {
    x == 0 || x == GRID_WIDTH - 1 || y == 0 || y == GRID_HEIGHT - 1
  }

  /** The inner walls: even cells with 2 <= x < GRID_WIDTH - 2 and 2 <= y < GRID_HEIGHT - 2. */
  predicate IsPillar(x: int, y: int) {
    2 <= x < GRID_WIDTH - 2 && 2 <= y < GRID_HEIGHT - 2 && x % 2 == 0 && y % 2 == 0
  }

  /** The player's start cell (1, 1) and its right and lower neighbours. */
  predicate IsStartArea(x: int, y: int) {
    (x == 1 && y == 1) || (x == 2 && y == 1) || (x == 1 && y == 2)
  }

  /** The tile initializeGrid leaves at (x, y). */
  function InitialTile(blocks: Cell -> bool, x: int, y: int): int {
    if IsBorder(x, y) || IsPillar(x, y) then WALL
    else if IsStartArea(x, y) then FLOOR
    else if blocks(Cell(x, y)) then DESTRUCTIBLE
    else FLOOR
  }

  function InitialGrid(blocks: Cell -> bool): (r: TileGrid)
    ensures WellFormed(r)
    ensures forall y, x :: 0 <= y < GRID_HEIGHT && 0 <= x < GRID_WIDTH ==> r[y][x] == InitialTile(blocks, x, y)
  {
    seq(GRID_HEIGHT, y => seq(GRID_WIDTH, x => InitialTile(blocks, x, y)))
  }

  /** Whether (x, y) comes before (cx, ry) in row-major order: the cells a
      row-by-row loop standing at (cx, ry) has already visited. */
  predicate Visited(x: int, y: int, cx: int, ry: int) {
    y < ry || (y == ry && x < cx)
  }

  /** The grid after the first `cols` columns of the top and bottom rows and
      the rows 1 .. `rows` - 1 of the side columns have been walled. */
  function FramedTile(x: int, y: int, cols: int, rows: int): int {
    if ((y == 0 || y == GRID_HEIGHT - 1) && x < cols) || ((x == 0 || x == GRID_WIDTH - 1) && 1 <= y < rows)
    then WALL else FLOOR
  }

  /** The grid after the frame and the inner walls before (cx, ry). */
  function WalledTile(x: int, y: int, cx: int, ry: int): int {
    if IsBorder(x, y) || (IsPillar(x, y) && Visited(x, y, cx, ry)) then WALL else FLOOR
  }

  /** The grid after the walls, with destructible blocks drawn at the
      floor cells before (cx, ry). */
  function ScatteredTile(blocks: Cell -> bool, x: int, y: int, cx: int, ry: int): int {
    if IsBorder(x, y) || IsPillar(x, y) then WALL
    else if Visited(x, y, cx, ry) && blocks(Cell(x, y)) then DESTRUCTIBLE
    else FLOOR
  }

  /** The frame and the inner walls are walls; the start area is floor; a
      destructible block only ever sits where there would be floor; and the
      set of walls is the same whatever the block draws. */
  lemma InitialGridLayout(blocks: Cell -> bool, other: Cell -> bool, x: int, y: int)
    requires InBounds(x, y)
    ensures var g := InitialGrid(blocks);
      (IsBorder(x, y) ==> g[y][x] == WALL) &&
      (IsPillar(x, y) ==> g[y][x] == WALL) &&
      (IsStartArea(x, y) ==> g[y][x] == FLOOR) &&
      (g[y][x] == DESTRUCTIBLE ==> !IsBorder(x, y) && !IsPillar(x, y) && !IsStartArea(x, y)) &&
      (g[y][x] == WALL <==> InitialGrid(other)[y][x] == WALL) &&
      (g[y][x] == WALL || g[y][x] == FLOOR || g[y][x] == DESTRUCTIBLE)
  {
  }

  /** The grid the last clearing of the start area leaves is the initial grid. */
  lemma InitialGridIs(g: TileGrid, blocks: Cell -> bool)
    requires WellFormed(g)
    requires forall j, i :: 0 <= j < GRID_HEIGHT && 0 <= i < GRID_WIDTH ==>
      g[j][i] == if IsStartArea(i, j) then FLOOR else ScatteredTile(blocks, i, j, 0, GRID_HEIGHT)
    ensures g == InitialGrid(blocks)
  {
    var r := InitialGrid(blocks);
    forall j | 0 <= j < GRID_HEIGHT
      ensures g[j] == r[j]
    {
      forall i | 0 <= i < GRID_WIDTH
        ensures g[j][i] == r[j][i]
      {
        assert r[j][i] == InitialTile(blocks, i, j);
      }
    }
  }

  // ---------------------------------------------------------------------------
  // addEnemies

  /** A cell where addEnemies may place an enemy: inside the border, on
      floor, outside the player's 4x4 start corner; with a type index. */
  predicate FreeSpot(g: TileGrid, s: (Cell, nat))
    requires WellFormed(g)
  {
    var c := s.0;
    1 <= c.x <= GRID_WIDTH - 2 && 1 <= c.y <= GRID_HEIGHT - 2 &&
    g[c.y][c.x] == FLOOR && (c.x > 3 || c.y > 3) && s.1 < |ENEMY_TYPES|
  }

  /** The enemy attempt `a` places, if its cell is floor and not within the
      player's 4x4 start corner: its cell and the index of its type. */
  function Attempt(g: TileGrid, rolls: nat -> (nat, nat, nat), a: nat): (r: Option<(Cell, nat)>)
    requires WellFormed(g)
    ensures r.Some? ==> FreeSpot(g, r.value)
  {
    var x := rolls(a).0 % (GRID_WIDTH - 2) + 1;
    var y := rolls(a).1 % (GRID_HEIGHT - 2) + 1;
    if g[y][x] == FLOOR && (x > 3 || y > 3) then
      Some((Cell(x, y), rolls(a).2 % |ENEMY_TYPES|))
    else None
  }

  /** One attempt, with the cell (x, y) and type index t it draws. */
  lemma AttemptIs(g: TileGrid, rolls: nat -> (nat, nat, nat), a: nat, x: int, y: int, t: nat)
    requires WellFormed(g)
    requires x == rolls(a).0 % (GRID_WIDTH - 2) + 1 && y == rolls(a).1 % (GRID_HEIGHT - 2) + 1
    requires t == rolls(a).2 % |ENEMY_TYPES|
    ensures 1 <= x <= GRID_WIDTH - 2 && 1 <= y <= GRID_HEIGHT - 2 && t < |ENEMY_TYPES|
    ensures Attempt(g, rolls, a) == if g[y][x] == FLOOR && (x > 3 || y > 3) then Some((Cell(x, y), t)) else None
  {
  }

  /** The cells and types (as indices into ENEMY_TYPES) of the enemies placed by
      the first `n` attempts of addEnemies(count): an attempt places nothing
      once `count` enemies are in. */
  function Placed(g: TileGrid, rolls: nat -> (nat, nat, nat), count: int, n: nat): (r: seq<(Cell, nat)>)
    requires WellFormed(g)
    ensures |r| <= n && |r| <= Max0(count)
  {
    if n == 0 then []
    else
      var p := Placed(g, rolls, count, n - 1);
      if |p| < count then
        match Attempt(g, rolls, n - 1)
        case None => p
        case Some(s) => p + [s]
      else p
  }

  /** Attempt number `a` (counting from 1), drawing the cell (x, y) and
      type index t, adds its spot to the spots `p` of the attempts before
      when fewer than `count` enemies are in and the cell is a free floor
      cell outside the start corner. */
  lemma PlacedStep(g: TileGrid, rolls: nat -> (nat, nat, nat), count: int, a: nat, p: seq<(Cell, nat)>, x: int, y: int, t: nat)
    requires WellFormed(g) && 1 <= a && Placed(g, rolls, count, a - 1) == p && |p| < count
    requires x == rolls(a - 1).0 % (GRID_WIDTH - 2) + 1 && y == rolls(a - 1).1 % (GRID_HEIGHT - 2) + 1
    requires t == rolls(a - 1).2 % |ENEMY_TYPES|
    ensures 1 <= x <= GRID_WIDTH - 2 && 1 <= y <= GRID_HEIGHT - 2 && t < |ENEMY_TYPES|
    ensures Placed(g, rolls, count, a) == if g[y][x] == FLOOR && (x > 3 || y > 3) then p + [(Cell(x, y), t)] else p
  {
    AttemptIs(g, rolls, a - 1, x, y, t);
  }

  /** The enemies addEnemies(count) places: at most MAX_ATTEMPTS attempts. */
  function Spots(g: TileGrid, rolls: nat -> (nat, nat, nat), count: int): (r: seq<(Cell, nat)>)
    requires WellFormed(g)
    ensures |r| <= MAX_ATTEMPTS && |r| <= Max0(count)
  {
    Placed(g, rolls, count, MAX_ATTEMPTS)
  }

  /** Once `count` enemies are in, later attempts change nothing: stopping
      the loop early places the same enemies. */
  lemma {:induction false} PlacedFull(g: TileGrid, rolls: nat -> (nat, nat, nat), count: int, n: nat, m: nat)
    requires WellFormed(g) && n <= m && |Placed(g, rolls, count, n)| >= count
    ensures Placed(g, rolls, count, m) == Placed(g, rolls, count, n)
    decreases m
  {
    if n < m {
      PlacedFull(g, rolls, count, n, m - 1);
    }
  }

  /** Every enemy is placed on a floor cell of the map, outside the corner
      around the player's start, with a type drawn from ENEMY_TYPES. */
  lemma {:induction false} PlacedOnFloor(g: TileGrid, rolls: nat -> (nat, nat, nat), count: int, n: nat)
    requires WellFormed(g)
    ensures forall k :: 0 <= k < |Placed(g, rolls, count, n)| ==> FreeSpot(g, Placed(g, rolls, count, n)[k])
  {
    if n > 0 {
      PlacedOnFloor(g, rolls, count, n - 1);
      var p, r := Placed(g, rolls, count, n - 1), Placed(g, rolls, count, n);
      forall k | 0 <= k < |r| ensures FreeSpot(g, r[k]) {
        if k < |p| { assert r[k] == p[k]; }
      }
    }
  }

  // ---------------------------------------------------------------------------
  // destroyBlock

  /** The powerup destroyBlock(c.x, c.y) drops for the draw `roll`. */
  function DropAt(roll: Option<nat>, c: Cell): (r: seq<Powerup>)
    ensures |r| <= 1 && (|r| == 1 <==> roll.Some?)
    ensures forall k :: 0 <= k < |r| ==>
      r[k].x == Pixel(c.x) && r[k].y == Pixel(c.y) && r[k].kind in POWERUP_TYPES
  {
    match roll
    case None => []
    case Some(k) => [Powerup(Pixel(c.x), Pixel(c.y), POWERUP_TYPES[k % |POWERUP_TYPES|])]
  }

  /** The powerups dropped, in order, when the blocks `cells` are destroyed. */
  function Drops(drops: Cell -> Option<nat>, cells: seq<Cell>): (r: seq<Powerup>)
    ensures |r| <= |cells|
  {
    if cells == [] then []
    else Drops(drops, cells[..|cells| - 1]) + DropAt(drops(cells[|cells| - 1]), cells[|cells| - 1])
  }

  lemma DropsNone(drops: Cell -> Option<nat>)
    ensures Drops(drops, []) == []
  {
  }

  lemma DropsOne(drops: Cell -> Option<nat>, c: Cell)
    ensures Drops(drops, [c]) == DropAt(drops(c), c)
  {
    assert [c][..0] == [];
  }

  lemma DropsAppend(drops: Cell -> Option<nat>, cells: seq<Cell>, more: seq<Cell>)
    requires |more| <= 1
    ensures Drops(drops, cells + more) == Drops(drops, cells) + Drops(drops, more)
  {
    if more == [] {
      assert cells + more == cells;
    } else {
      assert (cells + more)[..|cells + more| - 1] == cells;
      assert more[..0] == [];
      assert Drops(drops, more) == DropAt(drops(more[0]), more[0]);
    }
  }

  // ---------------------------------------------------------------------------
  // checkPowerupCollisions

  /** Math.floor cells, as checkPowerupCollisions computes them. */
  predicate OnCell(p: Powerup, c: Cell) {
    FloorIndex(p.x) == c.x && FloorIndex(p.y) == c.y
  }

  /** The powerups not on cell `c`, in order. */
  function Remaining(ps: seq<Powerup>, c: Cell): (r: seq<Powerup>)
    ensures |r| <= |ps|
    ensures forall p :: p in r <==> p in ps && !OnCell(p, c)
  {
    if ps == [] then []
    else (if OnCell(ps[0], c) then [] else [ps[0]]) + Remaining(ps[1..], c)
  }

  /** How many powerups of type `kind` lie on cell `c`. */
  function Count(ps: seq<Powerup>, c: Cell, kind: string): (r: nat)
    ensures r <= |ps|
    ensures r == 0 <==> forall k :: 0 <= k < |ps| ==> !(OnCell(ps[k], c) && ps[k].kind == kind)
  {
    if ps == [] then 0
    else (if OnCell(ps[0], c) && ps[0].kind == kind then 1 else 0) + Count(ps[1..], c, kind)
  }

  /** The player's speed after `n` speed powerups (Player.addPowerup). */
  function SpeedAfter(speed: real, n: nat): real {
    if n == 0 then speed else Min(SpeedAfter(speed, n - 1) + SPEED_STEP, SPEED_CAP)
  }

  /** Speed powerups add half a pixel per frame each, capped at 5. */
  lemma {:induction false} SpeedAfterCapped(speed: real, n: nat)
    requires speed <= SPEED_CAP
    ensures SpeedAfter(speed, n) == Min(speed + SPEED_STEP * n as real, SPEED_CAP)
  {
    if n > 0 {
      SpeedAfterCapped(speed, n - 1);
    }
  }

  lemma RemainingStep(ps: seq<Powerup>, i: int, c: Cell)
    requires 0 <= i < |ps|
    ensures Remaining(ps[i..], c) == (if OnCell(ps[i], c) then [] else [ps[i]]) + Remaining(ps[i + 1..], c)
  {
    assert ps[i..][1..] == ps[i + 1..];
  }

  /** The kit after checkPowerupCollisions has walked `ps` from its last
      element to its first, picking up each powerup on cell `c`. */
  function Gather(k: Kit, ps: seq<Powerup>, c: Cell): Kit {
    if ps == [] then k
    else
      var rest := Gather(k, ps[1..], c);
      if OnCell(ps[0], c) then Pick(rest, ps[0].kind) else rest
  }

  lemma GatherStep(k: Kit, ps: seq<Powerup>, i: int, c: Cell)
    requires 0 <= i < |ps|
    ensures Gather(k, ps[i..], c) ==
      if OnCell(ps[i], c) then Pick(Gather(k, ps[i + 1..], c), ps[i].kind) else Gather(k, ps[i + 1..], c)
  {
    assert ps[i..][1..] == ps[i + 1..];
  }

  // The order of the pick-ups does not matter: what each kind changes grows
  // with the number of powerups of that kind on the cell.

  /** Speed powerups: the tally counts them and the speed is raised once per
      powerup, up to the cap. */
  lemma {:induction false} GatherSpeed(k: Kit, ps: seq<Powerup>, c: Cell)
    ensures Gather(k, ps, c).collectedSpeed == k.collectedSpeed + Count(ps, c, "speed")
    ensures Gather(k, ps, c).speed == SpeedAfter(k.speed, Count(ps, c, "speed"))
  {
    if ps != [] {
      GatherSpeed(k, ps[1..], c);
    }
  }

  /** Bomb powerups: the tally, the limit and the stock grow by their number. */
  lemma {:induction false} GatherBombs(k: Kit, ps: seq<Powerup>, c: Cell)
    ensures Gather(k, ps, c).collectedBomb == k.collectedBomb + Count(ps, c, "bomb")
    ensures Gather(k, ps, c).maxBombs == k.maxBombs + Count(ps, c, "bomb")
    ensures Gather(k, ps, c).bombCount == k.bombCount + Count(ps, c, "bomb")
  {
    if ps != [] {
      GatherBombs(k, ps[1..], c);
    }
  }

  /** Range powerups: the tally and the blast range grow by their number. */
  lemma {:induction false} GatherRange(k: Kit, ps: seq<Powerup>, c: Cell)
    ensures Gather(k, ps, c).collectedRange == k.collectedRange + Count(ps, c, "range")
    ensures Gather(k, ps, c).bombRange == k.bombRange + Count(ps, c, "range")
  {
    if ps != [] {
      GatherRange(k, ps[1..], c);
    }
  }
}
