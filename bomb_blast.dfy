/** The shape of a bomb's blast in the class-based engine
    (Bomb.createExplosionTiles, js/game_objects/bomb.js): the bomb's own cell,
    then one arm per direction, in the order up, down, left, right.  An arm
    walks away from the centre for at most `power` cells; it stops without the
    cell when it leaves the grid, it takes a wall and stops, it takes a
    destructible block, turns it into floor (Level.destroyBlock) and stops, and
    it runs on over any other tile.

    The arms are computed one after the other on the grid as the previous arms
    left it, as the source does.  Every blast cell is kept as a grid cell; the
    source keeps the pixel corner of the cell, from which every reader gets the
    cell back with Math.round(p / GRID_SIZE) (Grid.CellIndexOfPixel). */
module BombBlast {
  import opened Grid

  /** A tile an arm stops on (and takes). */
  predicate Stops(v: int) {
    v == WALL || v == DESTRUCTIBLE
  }

  /** The arm from the `i`-th cell on, in direction `d` from the centre `c`. */
  function Arm(g: TileGrid, c: Cell, d: Dir, i: int, power: int): (r: seq<Cell>)
    requires WellFormed(g) && i >= 1
    ensures |r| <= if power >= i then power - i + 1 else 0
    ensures forall j :: 0 <= j < |r| ==> r[j] == Step(c, d, i + j) && InBounds(r[j].x, r[j].y)
    decreases power - i
  {
    if i > power then []
    else
      var t := Step(c, d, i);
      if !InBounds(t.x, t.y) then []
      else if Stops(g[t.y][t.x]) then [t]
      else [t] + Arm(g, c, d, i + 1, power)
  }

  /** Every cell of an arm but the last lets the blast through. */
  lemma {:induction false} ArmPassesThrough(g: TileGrid, c: Cell, d: Dir, i: int, power: int)
    requires WellFormed(g) && i >= 1
    ensures forall j :: 0 <= j < |Arm(g, c, d, i, power)| - 1 ==> !Stops(TileAt(g, Arm(g, c, d, i, power)[j]))
    decreases power - i
  {
    if i <= power {
      var t := Step(c, d, i);
      if InBounds(t.x, t.y) && !Stops(g[t.y][t.x]) {
        ArmPassesThrough(g, c, d, i + 1, power);
        var arm := Arm(g, c, d, i, power);
        var rest := Arm(g, c, d, i + 1, power);
        assert arm == [t] + rest;
        forall j | 1 <= j < |arm| - 1
          ensures !Stops(TileAt(g, arm[j]))
        {
          assert arm[j] == rest[j - 1];
        }
      }
    }
  }

  /** An arm shorter than its `power` cells ends on a wall or a block, or
      its next cell is off the grid. */
  lemma {:induction false} ArmEnds(g: TileGrid, c: Cell, d: Dir, i: int, power: int)
    requires WellFormed(g) && i >= 1
    ensures var arm := Arm(g, c, d, i, power);
      i + |arm| <= power ==>
        (|arm| > 0 && Stops(TileAt(g, arm[|arm| - 1]))) ||
        !InBounds(Step(c, d, i + |arm|).x, Step(c, d, i + |arm|).y)
    decreases power - i
  {
    if i <= power {
      var t := Step(c, d, i);
      if InBounds(t.x, t.y) && !Stops(g[t.y][t.x]) {
        ArmEnds(g, c, d, i + 1, power);
        var rest := Arm(g, c, d, i + 1, power);
        var arm := Arm(g, c, d, i, power);
        assert arm == [t] + rest;
        assert i + |arm| == (i + 1) + |rest|;
        if rest != [] {
          assert arm[|arm| - 1] == rest[|rest| - 1];
        }
      }
    }
  }

  /** Walking an arm cell by cell: `walked` are the cells before the `i`-th,
      all on the grid and letting the blast through, and the arm from the
      `i`-th cell on completes them. */
  ghost predicate Walked(g: TileGrid, c: Cell, d: Dir, i: int, power: int, walked: seq<Cell>) {
    WellFormed(g) && i >= 1 &&
    walked + Arm(g, c, d, i, power) == Arm(g, c, d, 1, power) &&
    forall j :: 0 <= j < |walked| ==> InBounds(walked[j].x, walked[j].y) && !Stops(TileAt(g, walked[j]))
  }

  lemma WalkStart(g: TileGrid, c: Cell, d: Dir, power: int)
    requires WellFormed(g)
    ensures Walked(g, c, d, 1, power, [])
  {
    assert [] + Arm(g, c, d, 1, power) == Arm(g, c, d, 1, power);
  }

  /** The `i`-th cell lets the blast through: the walk goes on. */
  lemma WalkOn(g: TileGrid, c: Cell, d: Dir, i: int, power: int, walked: seq<Cell>)
    requires Walked(g, c, d, i, power, walked) && i <= power
    requires InBounds(Step(c, d, i).x, Step(c, d, i).y) && !Stops(TileAt(g, Step(c, d, i)))
    ensures Walked(g, c, d, i + 1, power, walked + [Step(c, d, i)])
  {
    var t := Step(c, d, i);
    assert Arm(g, c, d, i, power) == [t] + Arm(g, c, d, i + 1, power);
    var w := walked + [t];
    assert w + Arm(g, c, d, i + 1, power) == walked + ([t] + Arm(g, c, d, i + 1, power));
    forall j | 0 <= j < |w|
      ensures InBounds(w[j].x, w[j].y) && !Stops(TileAt(g, w[j]))
    {
      if j < |walked| {
        assert w[j] == walked[j];
      }
    }
  }

  /** The walk has run out of power or off the grid: the arm is what was
      walked, and it destroys nothing. */
  lemma WalkOff(g: TileGrid, c: Cell, d: Dir, i: int, power: int, walked: seq<Cell>)
    requires Walked(g, c, d, i, power, walked)
    requires i > power || !InBounds(Step(c, d, i).x, Step(c, d, i).y)
    ensures Arm(g, c, d, 1, power) == walked
    ensures Destroyed(g, walked) == [] && AfterArm(g, walked) == g
  {
    assert Arm(g, c, d, i, power) == [];
    assert walked + [] == walked;
  }

  /** The `i`-th cell is a wall or a block: the arm ends with it, and a
      block is destroyed. */
  lemma WalkInto(g: TileGrid, c: Cell, d: Dir, i: int, power: int, walked: seq<Cell>)
    requires Walked(g, c, d, i, power, walked) && i <= power
    requires InBounds(Step(c, d, i).x, Step(c, d, i).y) && Stops(TileAt(g, Step(c, d, i)))
    ensures var t := Step(c, d, i);
      Arm(g, c, d, 1, power) == walked + [t] &&
      Destroyed(g, walked + [t]) == (if TileAt(g, t) == DESTRUCTIBLE then [t] else []) &&
      AfterArm(g, walked + [t]) == (if TileAt(g, t) == DESTRUCTIBLE then SetTile(g, t.x, t.y, FLOOR) else g)
  {
    assert Arm(g, c, d, i, power) == [Step(c, d, i)];
  }

  /** The block an arm ends on, if it is destructible. */
  function Destroyed(g: TileGrid, arm: seq<Cell>): (r: seq<Cell>)
    requires WellFormed(g) && forall j :: 0 <= j < |arm| ==> InBounds(arm[j].x, arm[j].y)
    ensures |r| <= 1
    ensures forall j :: 0 <= j < |r| ==> r[j] in arm && TileAt(g, r[j]) == DESTRUCTIBLE
  {
    if arm != [] && TileAt(g, arm[|arm| - 1]) == DESTRUCTIBLE then [arm[|arm| - 1]] else []
  }

  /** The grid after an arm: its destructible end, if any, is floor. */
  function AfterArm(g: TileGrid, arm: seq<Cell>): (r: TileGrid)
    requires WellFormed(g) && forall j :: 0 <= j < |arm| ==> InBounds(arm[j].x, arm[j].y)
    ensures WellFormed(r)
    ensures forall y, x :: 0 <= y < GRID_HEIGHT && 0 <= x < GRID_WIDTH ==>
      r[y][x] == (if Cell(x, y) in Destroyed(g, arm) then FLOOR else g[y][x])
  {
    if arm != [] && TileAt(g, arm[|arm| - 1]) == DESTRUCTIBLE then
      SetTile(g, arm[|arm| - 1].x, arm[|arm| - 1].y, FLOOR)
    else g
  }

  /** What a blast leaves: its cells in order, the grid, and the blocks it
      destroyed in the order of their destruction. */
  datatype Blast = Blast(tiles: seq<Cell>, grid: TileGrid, destroyed: seq<Cell>)

  /** The blast of a bomb at `c` through the arms of directions `ds`. */
  function Spread(g: TileGrid, c: Cell, power: int, ds: seq<Dir>): (r: Blast)
    requires WellFormed(g)
    ensures WellFormed(r.grid) && |r.tiles| >= 1 && r.tiles[0] == c
    ensures forall k :: 1 <= k < |r.tiles| ==> InBounds(r.tiles[k].x, r.tiles[k].y)
  {
    if ds == [] then Blast([c], g, [])
    else
      var b := Spread(g, c, power, ds[..|ds| - 1]);
      var arm := Arm(b.grid, c, ds[|ds| - 1], 1, power);
      Blast(b.tiles + arm, AfterArm(b.grid, arm), b.destroyed + Destroyed(b.grid, arm))
  }

  /** One more arm of the blast. */
  lemma SpreadStep(g: TileGrid, c: Cell, power: int, ds: seq<Dir>, k: int)
    requires WellFormed(g) && 0 <= k < |ds|
    ensures var b := Spread(g, c, power, ds[..k]);
      var arm := Arm(b.grid, c, ds[k], 1, power);
      Spread(g, c, power, ds[..k + 1]) ==
        Blast(b.tiles + arm, AfterArm(b.grid, arm), b.destroyed + Destroyed(b.grid, arm))
  {
    assert ds[..k + 1][..k] == ds[..k];
  }

  /** Bomb.createExplosionTiles on grid `g` for a bomb on cell `c`. */
  function Explosion(g: TileGrid, c: Cell, power: int): (r: Blast)
    requires WellFormed(g)
  {
    Spread(g, c, power, DIRECTIONS)
  }

  /** A blast through the arms of `ds` holds at most 1 + |ds|·power cells. */
  lemma {:induction false} SpreadLength(g: TileGrid, c: Cell, power: int, ds: seq<Dir>)
    requires WellFormed(g)
    ensures |Spread(g, c, power, ds).tiles| <= 1 + |ds| * Max0(power)
  {
    if ds != [] {
      var pre := ds[..|ds| - 1];
      SpreadLength(g, c, power, pre);
      var b := Spread(g, c, power, pre);
      var arm := Arm(b.grid, c, ds[|ds| - 1], 1, power);
      assert |arm| <= Max0(power);
      Distribute(|pre|, Max0(power));
    }
  }

  lemma Distribute(n: nat, m: nat)
    ensures (n + 1) * m == n * m + m
  {
  }

  /** (t) lies on the row or the column of (c), 1 to `power` cells away. */
  predicate OnCross(c: Cell, t: Cell, power: int) {
    (t.x == c.x && 1 <= Dist(t.y, c.y) <= power) || (t.y == c.y && 1 <= Dist(t.x, c.x) <= power)
  }

  function Dist(a: int, b: int): (r: nat)
    ensures r == a - b || r == b - a
  {
    if a < b then b - a else a - b
  }

  lemma StepOnCross(c: Cell, d: Dir, i: int, power: int)
    requires 1 <= i <= power
    ensures OnCross(c, Step(c, d, i), power)
  {
    match d {
      case Up =>
      case Down =>
      case Left =>
      case Right =>
    }
  }

  lemma ArmOnCross(g: TileGrid, c: Cell, d: Dir, power: int)
    requires WellFormed(g)
    ensures forall j :: 0 <= j < |Arm(g, c, d, 1, power)| ==> OnCross(c, Arm(g, c, d, 1, power)[j], power)
  {
    var arm := Arm(g, c, d, 1, power);
    forall j | 0 <= j < |arm|
      ensures OnCross(c, arm[j], power)
    {
      StepOnCross(c, d, 1 + j, power);
    }
  }

  /** Every cell after the first lies on the centre's row or column, 1 to
      `power` cells away. */
  lemma {:induction false} SpreadCells(g: TileGrid, c: Cell, power: int, ds: seq<Dir>)
    requires WellFormed(g)
    ensures forall k :: 1 <= k < |Spread(g, c, power, ds).tiles| ==>
      OnCross(c, Spread(g, c, power, ds).tiles[k], power)
  {
    if ds != [] {
      var pre := ds[..|ds| - 1];
      SpreadCells(g, c, power, pre);
      var b := Spread(g, c, power, pre);
      var arm := Arm(b.grid, c, ds[|ds| - 1], 1, power);
      ArmOnCross(b.grid, c, ds[|ds| - 1], power);
      var r := Spread(g, c, power, ds);
      assert r.tiles == b.tiles + arm;
      forall k | 1 <= k < |r.tiles|
        ensures OnCross(c, r.tiles[k], power)
      {
        if k < |b.tiles| {
          assert r.tiles[k] == b.tiles[k];
        } else {
          assert r.tiles[k] == arm[k - |b.tiles|];
        }
      }
    }
  }

  /** The blast's first cell is the bomb's own; every other lies on its row or
      column 1 to `power` cells away; there are at most 1 + 4·power. */
  lemma ExplosionShape(g: TileGrid, c: Cell, power: int)
    requires WellFormed(g)
    ensures var r := Explosion(g, c, power);
      r.tiles[0] == c && |r.tiles| <= 1 + 4 * Max0(power) &&
      forall k :: 1 <= k < |r.tiles| ==> OnCross(c, r.tiles[k], power)
  {
    SpreadLength(g, c, power, DIRECTIONS);
    SpreadCells(g, c, power, DIRECTIONS);
  }

  /** A blast only turns destructible blocks it reaches into floor: walls and
      every other cell stay as they were. */
  lemma {:induction false} SpreadGrid(g: TileGrid, c: Cell, power: int, ds: seq<Dir>)
    requires WellFormed(g)
    ensures var r := Spread(g, c, power, ds);
      (forall k :: 0 <= k < |r.destroyed| ==>
        r.destroyed[k] in r.tiles && InBounds(r.destroyed[k].x, r.destroyed[k].y) &&
        TileAt(g, r.destroyed[k]) == DESTRUCTIBLE) &&
      (forall y, x :: 0 <= y < GRID_HEIGHT && 0 <= x < GRID_WIDTH ==>
        r.grid[y][x] == (if Cell(x, y) in r.destroyed then FLOOR else g[y][x]))
  {
    if ds != [] {
      var pre := ds[..|ds| - 1];
      SpreadGrid(g, c, power, pre);
      var b := Spread(g, c, power, pre);
      var arm := Arm(b.grid, c, ds[|ds| - 1], 1, power);
      var r := Spread(g, c, power, ds);
      assert r.destroyed == b.destroyed + Destroyed(b.grid, arm);
      forall k | 0 <= k < |r.destroyed|
        ensures r.destroyed[k] in r.tiles && InBounds(r.destroyed[k].x, r.destroyed[k].y) &&
                TileAt(g, r.destroyed[k]) == DESTRUCTIBLE
      {
        if k >= |b.destroyed| {
          var t := r.destroyed[k];
          assert t in Destroyed(b.grid, arm);
          assert TileAt(b.grid, t) == DESTRUCTIBLE;
        }
      }
    }
  }

  /** Walls survive every blast; a changed cell was a destructible block and
      is floor now. */
  lemma ExplosionGrid(g: TileGrid, c: Cell, power: int, x: int, y: int)
    requires WellFormed(g) && InBounds(x, y)
    ensures var r := Explosion(g, c, power);
      (g[y][x] == WALL ==> r.grid[y][x] == WALL) &&
      (r.grid[y][x] != g[y][x] ==> g[y][x] == DESTRUCTIBLE && r.grid[y][x] == FLOOR && Cell(x, y) in r.tiles)
  {
    SpreadGrid(g, c, power, DIRECTIONS);
  }
}
