/** The map side of the self-contained root script.js: its own grid size and
    tile codes, generateMap, ensureEmptyTile and the blast pattern of
    getExplosionTiles.  It shares nothing with the class-based engine but
    JavaScript's Math.round. */
module ScriptMap {
  import Grid

  /** Tiles per side of the square map. */
  const GRID_SIZE: int := 15

  /** Tile codes stored in gameMap. */
  const TILE_EMPTY: int := 0
  const TILE_INDESTRUCTIBLE: int := 1
  const TILE_DESTRUCTIBLE: int := 2

  /** gameMap, indexed gameMap[y][x]. */
  type Map = seq<seq<int>>

  /** A map of GRID_SIZE rows of GRID_SIZE tiles, the only shape generateMap
      builds and the script ever indexes. */
  predicate Shaped(m: Map) {
    |m| == GRID_SIZE && forall y :: 0 <= y < GRID_SIZE ==> |m[y]| == GRID_SIZE
  }

  predicate InBounds(x: int, y: int) {
    0 <= x < GRID_SIZE && 0 <= y < GRID_SIZE
  }

  /** A tile position {x, y}. */
  datatype Coord = Coord(x: int, y: int)

  /** The four movement strings 'up', 'down', 'left' and 'right'. */
  datatype Heading = Up | Down | Left | Right {
    function DX(): int { match this case Left => -1 case Right => 1 case _ => 0 }
    function DY(): int { match this case Up => -1 case Down => 1 case _ => 0 }
  }

  /** The directions array of getExplosionTiles, in its order. */
  const DIRECTIONS: seq<Heading> := [Up, Down, Left, Right]

  /** Math.round, shared with the class-based engine. */
  function Round(v: real): (r: int)
    ensures v - 0.5 < r as real <= v + 0.5
  {
    Grid.Round(v)
  }

  // ---------------------------------------------------------------------------
  // generateMap and ensureEmptyTile
  // ---------------------------------------------------------------------------

  /** The tiles generateMap makes indestructible: the border, and every
      interior tile whose coordinates are both even. */
  predicate Pillar(x: int, y: int) {
    x == 0 || x == GRID_SIZE - 1 || y == 0 || y == GRID_SIZE - 1 || (x % 2 == 0 && y % 2 == 0)
  }

  /** Tile `t` is what generateMap puts at (x, y) when the draw there says
      `crate`: a pillar, else a destructible block exactly when the draw
      says so, else empty. */
  predicate Drawn(t: int, x: int, y: int, crate: bool) {
    (t == TILE_INDESTRUCTIBLE <==> Pillar(x, y)) &&
    (t == TILE_DESTRUCTIBLE <==> !Pillar(x, y) && crate) &&
    (t == TILE_EMPTY <==> !Pillar(x, y) && !crate)
  }

  /** generateMap.  `crate(x, y)` stands for the draw Math.random() < 0.6
      made for a tile that is not a pillar. */
  method GenerateMap(crate: (int, int) -> bool) returns (m: Map)
    ensures Shaped(m)
    ensures forall y, x :: InBounds(x, y) ==> Drawn(m[y][x], x, y, crate(x, y))
  {
    m := [];
    var y := 0;
    while y < GRID_SIZE
      invariant 0 <= y <= GRID_SIZE && |m| == y
      invariant forall j :: 0 <= j < y ==> |m[j]| == GRID_SIZE
      invariant forall j, i :: 0 <= j < y && 0 <= i < GRID_SIZE ==> Drawn(m[j][i], i, j, crate(i, j))
    {
      var row := [];
      var x := 0;
      while x < GRID_SIZE
        invariant 0 <= x <= GRID_SIZE && |row| == x
        invariant forall i :: 0 <= i < x ==> Drawn(row[i], i, y, crate(i, y))
      {
        if x == 0 || x == GRID_SIZE - 1 || y == 0 || y == GRID_SIZE - 1 {
          row := row + [TILE_INDESTRUCTIBLE];
        } else if x % 2 == 0 && y % 2 == 0 {
          row := row + [TILE_INDESTRUCTIBLE];
        } else if crate(x, y) {
          row := row + [TILE_DESTRUCTIBLE];
        } else {
          row := row + [TILE_EMPTY];
        }
        x := x + 1;
      }
      m := m + [row];
      y := y + 1;
    }
  }

  /** ensureEmptyTile on map `m`: the tile (x, y) becomes empty when it is on
      the map and not indestructible; every other tile keeps its code. */
  function Emptied(m: Map, x: int, y: int): (r: Map)
    requires Shaped(m)
    ensures Shaped(r)
    ensures forall j, i :: InBounds(i, j) ==>
      r[j][i] == (if i == x && j == y && m[j][i] != TILE_INDESTRUCTIBLE then TILE_EMPTY else m[j][i])
  {
    if InBounds(x, y) && m[y][x] != TILE_INDESTRUCTIBLE then m[y := m[y][x := TILE_EMPTY]] else m
  }

  /** ensureEmptyTile never touches an indestructible tile, is a no-op off
      the map, and doing it twice is doing it once. */
  lemma EmptiedKeeps(m: Map, x: int, y: int)
    requires Shaped(m)
    ensures !InBounds(x, y) || m[y][x] == TILE_INDESTRUCTIBLE ==> Emptied(m, x, y) == m
    ensures Emptied(Emptied(m, x, y), x, y) == Emptied(m, x, y)
    ensures forall j, i :: InBounds(i, j) ==>
      (Emptied(m, x, y)[j][i] == TILE_INDESTRUCTIBLE <==> m[j][i] == TILE_INDESTRUCTIBLE)
  {
    var r := Emptied(m, x, y);
    var rr := Emptied(r, x, y);
    assert |rr| == |r|;
    forall j | 0 <= j < GRID_SIZE
      ensures rr[j] == r[j]
    {
      assert |rr[j]| == |r[j]|;
    }
  }

  // ---------------------------------------------------------------------------
  // getExplosionTiles
  // ---------------------------------------------------------------------------

  /** The tile `i` steps from (cx, cy) along `h`. */
  function Along(cx: int, cy: int, h: Heading, i: int): Coord {
    match h
    case Up => Coord(cx, cy - i)
    case Down => Coord(cx, cy + i)
    case Left => Coord(cx - i, cy)
    case Right => Coord(cx + i, cy)
  }

  /** The tiles one arm of getExplosionTiles covers from step `i` to step
      `power`. */
  function Arm(m: Map, cx: int, cy: int, h: Heading, i: int, power: int): seq<Coord>
    requires Shaped(m)
    decreases power - i
  {
    if i > power then []
    else
      var t := Along(cx, cy, h, i);
      if !InBounds(t.x, t.y) || m[t.y][t.x] == TILE_INDESTRUCTIBLE then []
      else if m[t.y][t.x] == TILE_DESTRUCTIBLE then [t]
      else [t] + Arm(m, cx, cy, h, i + 1, power)
  }

  /** An arm is the run of steps i, i + 1, ... along its direction, at most
      up to step `power`: every tile is on the map and not indestructible,
      and every tile but the last is not destructible either. */
  lemma {:induction false} ArmShape(m: Map, cx: int, cy: int, h: Heading, i: int, power: int)
    requires Shaped(m)
    decreases power - i
    ensures var r := Arm(m, cx, cy, h, i, power);
      |r| <= (if i <= power then power - i + 1 else 0) &&
      (forall n :: 0 <= n < |r| ==>
        r[n] == Along(cx, cy, h, i + n) && InBounds(r[n].x, r[n].y) && m[r[n].y][r[n].x] != TILE_INDESTRUCTIBLE) &&
      (forall n :: 0 <= n < |r| - 1 ==> InBounds(r[n].x, r[n].y) && m[r[n].y][r[n].x] != TILE_DESTRUCTIBLE)
  {
    if i <= power {
      var t := Along(cx, cy, h, i);
      if InBounds(t.x, t.y) && m[t.y][t.x] != TILE_INDESTRUCTIBLE && m[t.y][t.x] != TILE_DESTRUCTIBLE {
        ArmShape(m, cx, cy, h, i + 1, power);
        var rest := Arm(m, cx, cy, h, i + 1, power);
        var r := [t] + rest;
        assert forall n :: 1 <= n < |r| ==> r[n] == rest[n - 1];
      }
    }
  }

  /** An arm that ends before step `power` ends on a destructible tile, or
      just before a step off the map or onto an indestructible tile. */
  lemma {:induction false} ArmEnd(m: Map, cx: int, cy: int, h: Heading, i: int, power: int)
    requires Shaped(m)
    decreases power - i
    ensures var r := Arm(m, cx, cy, h, i, power);
      i + |r| <= power ==>
        (r != [] && InBounds(r[|r| - 1].x, r[|r| - 1].y) && m[r[|r| - 1].y][r[|r| - 1].x] == TILE_DESTRUCTIBLE) ||
        var t := Along(cx, cy, h, i + |r|);
        !InBounds(t.x, t.y) || m[t.y][t.x] == TILE_INDESTRUCTIBLE
  {
    if i <= power {
      var t := Along(cx, cy, h, i);
      if InBounds(t.x, t.y) && m[t.y][t.x] != TILE_INDESTRUCTIBLE && m[t.y][t.x] != TILE_DESTRUCTIBLE {
        ArmEnd(m, cx, cy, h, i + 1, power);
        var rest := Arm(m, cx, cy, h, i + 1, power);
        if rest != [] {
          assert ([t] + rest)[|rest|] == rest[|rest| - 1];
        }
      }
    }
  }

  /** The arms along `hs`, in order, each from step 1. */
  function Arms(m: Map, cx: int, cy: int, power: int, hs: seq<Heading>): (r: seq<Coord>)
    requires Shaped(m)
    ensures |r| <= |hs| * (if power < 0 then 0 else power)
    ensures forall n :: 0 <= n < |r| ==>
      r[n] != Coord(cx, cy) && InBounds(r[n].x, r[n].y) && m[r[n].y][r[n].x] != TILE_INDESTRUCTIBLE
  {
    if hs == [] then []
    else
      var rest := Arms(m, cx, cy, power, hs[..|hs| - 1]);
      var arm := Arm(m, cx, cy, hs[|hs| - 1], 1, power);
      ArmShape(m, cx, cy, hs[|hs| - 1], 1, power);
      var r := rest + arm;
      assert forall n :: 0 <= n < |r| ==> r[n] == if n < |rest| then rest[n] else arm[n - |rest|];
      var p := if power < 0 then 0 else power;
      assert |hs| * p == (|hs| - 1) * p + p;
      r
  }

  /** What getExplosionTiles returns for a bomb at (cx, cy): the up, down,
      left and right arms.  The bomb's own tile is never among them, every
      tile is on the map and not indestructible, and there are at most
      `power` tiles per arm. */
  function ExplosionTiles(m: Map, cx: int, cy: int, power: int): (r: seq<Coord>)
    requires Shaped(m)
    ensures Coord(cx, cy) !in r
    ensures |r| <= 4 * (if power < 0 then 0 else power)
    ensures forall t :: t in r ==> InBounds(t.x, t.y) && m[t.y][t.x] != TILE_INDESTRUCTIBLE
  {
    Arms(m, cx, cy, power, DIRECTIONS)
  }

  /** getExplosionTiles: forEach over the four directions, each running
      the inner loop of ArmTiles. */
  method GetExplosionTiles(m: Map, centerX: int, centerY: int, power: int) returns (affected: seq<Coord>)
    requires Shaped(m)
    ensures affected == ExplosionTiles(m, centerX, centerY, power)
  {
    affected := [];
    for d := 0 to |DIRECTIONS|
      invariant affected == Arms(m, centerX, centerY, power, DIRECTIONS[..d])
    {
      var arm := ArmTiles(m, centerX, centerY, DIRECTIONS[d], power);
      affected := affected + arm;
      assert DIRECTIONS[..d + 1][..d] == DIRECTIONS[..d];
    }
    assert DIRECTIONS[..4] == DIRECTIONS;
  }

  /** The inner loop of getExplosionTiles for one direction: steps 1..power,
      breaking at the map edge, at an indestructible tile, or after a
      destructible one. */
  method ArmTiles(m: Map, centerX: int, centerY: int, h: Heading, power: int) returns (arm: seq<Coord>)
    requires Shaped(m)
    ensures arm == Arm(m, centerX, centerY, h, 1, power)
  {
    arm := [];
    var i := 1;
    while i <= power
      invariant 1 <= i
      invariant arm + Arm(m, centerX, centerY, h, i, power) == Arm(m, centerX, centerY, h, 1, power)
      decreases power - i
    {
      var tileX, tileY := Along(centerX, centerY, h, i).x, Along(centerX, centerY, h, i).y;
      if 0 <= tileX < GRID_SIZE && 0 <= tileY < GRID_SIZE {
        var tileType := m[tileY][tileX];
        if tileType == TILE_INDESTRUCTIBLE {
          break;
        }
        var t := Coord(tileX, tileY);
        if tileType == TILE_DESTRUCTIBLE {
          assert Arm(m, centerX, centerY, h, i, power) == [t];
          arm := arm + [t];
          break;
        }
        assert Arm(m, centerX, centerY, h, i, power) == [t] + Arm(m, centerX, centerY, h, i + 1, power);
        assert arm + ([t] + Arm(m, centerX, centerY, h, i + 1, power)) == (arm + [t]) + Arm(m, centerX, centerY, h, i + 1, power);
        arm := arm + [t];
      } else {
        break;
      }
      i := i + 1;
    }
  }
}
