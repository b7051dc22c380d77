/** The objects of the self-contained root script.js: the player, bomb,
    explosion and enemy records its create* functions build, and the
    per-frame motion that update applies to the player and to each enemy.
    Pixel positions and speeds are JavaScript numbers, modelled as `real`;
    Date.now() is the caller's `now`, in whole milliseconds; TILE_SIZE
    (canvas.width / GRID_SIZE) is the parameter `tile`. */
module ScriptEntities {
  import opened ScriptMap

  const PLAYER_SPEED: real := 3.0
  const BOMB_TIMER: int := 3000
  const EXPLOSION_DURATION: int := 500
  const INITIAL_BOMBS: int := 1
  const BOMB_POWER: int := 1
  const ENEMY_SPEED: real := 2.0

  /** movingTo: null, or the direction of the step under way. */
  datatype Motion = Idle | Moving(dir: Heading)

  /** The pixel coordinate of grid index `i`: i * TILE_SIZE. */
  function Px(i: int, tile: real): real {
    i as real * tile
  }

  // ---------------------------------------------------------------------------
  // Motion toward a target
  // ---------------------------------------------------------------------------

  /** The target (tx, ty) lies ahead along `d`: on the same line, and not
      behind (x, y). */
  predicate Ahead(d: Heading, x: real, y: real, tx: real, ty: real) {
    match d
    case Up => x == tx && ty <= y
    case Down => x == tx && y <= ty
    case Left => y == ty && tx <= x
    case Right => y == ty && x <= tx
  }

  /** How far the target still is along `d`. */
  function Gap(d: Heading, x: real, y: real, tx: real, ty: real): real {
    match d
    case Up => y - ty
    case Down => ty - y
    case Left => x - tx
    case Right => tx - x
  }

  /** One frame of motion along `d` by `s` pixels, clamped to the target.
      From a position short of the target, the step never passes it and
      closes the gap by `s`, or to nothing when the gap was at most `s`. */
  function Slide(d: Heading, x: real, y: real, tx: real, ty: real, s: real): (r: (real, real))
    ensures Ahead(d, x, y, tx, ty) && s >= 0.0 ==>
      Ahead(d, r.0, r.1, tx, ty) &&
      Gap(d, r.0, r.1, tx, ty) == (if Gap(d, x, y, tx, ty) <= s then 0.0 else Gap(d, x, y, tx, ty) - s)
  {
    match d
    case Up => (x, if y - s < ty then ty else y - s)
    case Down => (x, if y + s > ty then ty else y + s)
    case Left => (if x - s < tx then tx else x - s, y)
    case Right => (if x + s > tx then tx else x + s, y)
  }

  /** The snapping test: both axes closer to the target than `tol`. */
  predicate Near(x: real, y: real, tx: real, ty: real, tol: real) {
    (if x < tx then tx - x else x - tx) < tol && (if y < ty then ty - y else y - ty) < tol
  }

  /** Math.round(x / TILE_SIZE) recovers the grid index of a tile's pixel
      coordinate. */
  lemma {:induction false} RoundPx(i: int, tile: real)
    requires tile > 0.0
    ensures Round(Px(i, tile) / tile) == i
  {
    assert Px(i, tile) / tile == i as real;
  }

  // ---------------------------------------------------------------------------
  // The player
  // ---------------------------------------------------------------------------

  /** The object createPlayer returns (size and colour are drawing only). */
  class Player {
    var x: real
    var y: real
    var gridX: int
    var gridY: int
    const speed: real
    var isMoving: bool
    var targetX: real
    var targetY: real
    var movingTo: Motion
    var bombsAvailable: int
    const bombPower: int
    var alive: bool

    /** createPlayer(gridX, gridY). */
    constructor (gridX: int, gridY: int, tile: real)
      ensures this.gridX == gridX && this.gridY == gridY
      ensures x == Px(gridX, tile) && y == Px(gridY, tile) && targetX == x && targetY == y
      ensures speed == PLAYER_SPEED && !isMoving && movingTo == Idle
      ensures bombsAvailable == INITIAL_BOMBS && bombPower == BOMB_POWER && alive
      ensures Aligned(tile)
    {
      x, y := Px(gridX, tile), Px(gridY, tile);
      this.gridX, this.gridY := gridX, gridY;
      speed := PLAYER_SPEED;
      isMoving := false;
      targetX, targetY := Px(gridX, tile), Px(gridY, tile);
      movingTo := Idle;
      bombsAvailable := INITIAL_BOMBS;
      bombPower := BOMB_POWER;
      alive := true;
    }

    /** The player's pixel position agrees with its grid cell: at rest it
        stands on that cell; moving, its target is the neighbouring cell in
        the direction of travel and still lies ahead. */
    ghost predicate Aligned(tile: real)
      reads this`x, this`y, this`gridX, this`gridY, this`targetX, this`targetY, this`movingTo
    {
      match movingTo
      case Idle => x == Px(gridX, tile) && y == Px(gridY, tile)
      case Moving(d) =>
        targetX == Px(gridX + d.DX(), tile) && targetY == Px(gridY + d.DY(), tile) && Ahead(d, x, y, targetX, targetY)
    }

    /** The player half of update for a living player with a step under
        way: slide `speed` pixels toward the target, then snap onto it and
        take its grid cell once both axes are within speed / 2. */
    method Advance(tile: real)
      requires tile > 0.0 && movingTo.Moving? && speed >= 0.0
      modifies this`x, this`y, this`movingTo, this`isMoving, this`gridX, this`gridY
      ensures old(Aligned(tile)) ==> Aligned(tile)
      ensures var p := Slide(old(movingTo).dir, old(x), old(y), targetX, targetY, speed);
        if Near(p.0, p.1, targetX, targetY, speed / 2.0) then
          x == targetX && y == targetY && movingTo == Idle && !isMoving &&
          gridX == Round(targetX / tile) && gridY == Round(targetY / tile)
        else
          x == p.0 && y == p.1 && movingTo == old(movingTo) && isMoving &&
          gridX == old(gridX) && gridY == old(gridY)
      ensures old(Aligned(tile)) && movingTo == Idle ==>
        gridX == old(gridX) + old(movingTo).dir.DX() && gridY == old(gridY) + old(movingTo).dir.DY()
    {
      var d := movingTo.dir;
      var p := Slide(d, x, y, targetX, targetY, speed);
      x, y := p.0, p.1;
      var tolerance := speed / 2.0;
      if Near(x, y, targetX, targetY, tolerance) {
        x, y := targetX, targetY;
        movingTo := Idle;
        isMoving := false;
        ghost var gx, gy := gridX, gridY;
        gridX := Round(x / tile);
        gridY := Round(y / tile);
        if old(Aligned(tile)) {
          RoundPx(gx + d.DX(), tile);
          RoundPx(gy + d.DY(), tile);
        }
      } else {
        isMoving := true;
      }
    }
  }

  // ---------------------------------------------------------------------------
  // Bombs and explosions
  // ---------------------------------------------------------------------------

  /** The object createBomb returns; only `exploded` ever changes. */
  class Bomb {
    const gridX: int
    const gridY: int
    const x: real
    const y: real
    const startTime: int
    const timer: int
    const power: int
    const plantedBy: Player?
    var exploded: bool

    /** createBomb(gridX, gridY, power, plantedBy) at time `now`. */
    constructor (gridX: int, gridY: int, power: int, plantedBy: Player?, now: int, tile: real)
      ensures this.gridX == gridX && this.gridY == gridY && x == Px(gridX, tile) && y == Px(gridY, tile)
      ensures startTime == now && timer == BOMB_TIMER && this.power == power && this.plantedBy == plantedBy
      ensures !exploded && !Due(now)
    {
      this.gridX, this.gridY := gridX, gridY;
      x, y := Px(gridX, tile), Px(gridY, tile);
      startTime := now;
      timer := BOMB_TIMER;
      this.power := power;
      this.plantedBy := plantedBy;
      exploded := false;
    }

    /** update's test for firing: currentTime - startTime >= timer. */
    predicate Due(now: int) {
      now - startTime >= timer
    }

    /** The removal explodeBomb announces: an exploded bomb whose fuse and
        EXPLOSION_DURATION have both run out by `now`. */
    predicate Spent(now: int)
      reads this`exploded
    {
      exploded && now - startTime >= timer + EXPLOSION_DURATION
    }
  }

  /** The object createExplosion returns: one tile's blast marker. */
  datatype Explosion = Explosion(gridX: int, gridY: int, startTime: int, duration: int) {
    /** update's test for removing a marker: currentTime - startTime >= duration. */
    predicate Expired(now: int) {
      now - startTime >= duration
    }
  }

  /** createExplosion(gridX, gridY) at time `now`: a marker on that tile
      that lasts EXPLOSION_DURATION, so it outlives the frame that made it. */
  function CreateExplosion(gridX: int, gridY: int, now: int): (r: Explosion)
    ensures r.gridX == gridX && r.gridY == gridY
    ensures !r.Expired(now) && r.Expired(now + EXPLOSION_DURATION)
  {
    Explosion(gridX, gridY, now, EXPLOSION_DURATION)
  }

  // ---------------------------------------------------------------------------
  // Enemies
  // ---------------------------------------------------------------------------

  /** The object createEnemy returns (size, colour and the never-read
      moveDirection are left out). */
  class Enemy {
    var x: real
    var y: real
    var gridX: int
    var gridY: int
    const speed: real
    var alive: bool
    var movingTo: Motion
    var targetX: real
    var targetY: real

    /** createEnemy(gridX, gridY). */
    constructor (gridX: int, gridY: int, tile: real)
      ensures this.gridX == gridX && this.gridY == gridY
      ensures x == Px(gridX, tile) && y == Px(gridY, tile) && targetX == x && targetY == y
      ensures speed == ENEMY_SPEED && alive && movingTo == Idle
      ensures Aligned(tile)
    {
      x, y := Px(gridX, tile), Px(gridY, tile);
      this.gridX, this.gridY := gridX, gridY;
      speed := ENEMY_SPEED;
      alive := true;
      movingTo := Idle;
      targetX, targetY := Px(gridX, tile), Px(gridY, tile);
    }

    /** Unlike the player, an enemy takes its new grid cell when it starts a
        step: at rest it stands on its cell; moving, its target is that cell
        and still lies ahead. */
    ghost predicate Aligned(tile: real)
      reads this`x, this`y, this`gridX, this`gridY, this`targetX, this`targetY, this`movingTo
    {
      match movingTo
      case Idle => x == Px(gridX, tile) && y == Px(gridY, tile)
      case Moving(d) => targetX == Px(gridX, tile) && targetY == Px(gridY, tile) && Ahead(d, x, y, targetX, targetY)
    }

    /** One enemy's turn in update: a living enemy at rest picks the
        direction DIRECTIONS[pick % 4] (Math.floor(Math.random() * 4)) and
        starts a step to that neighbour when it is on the map and empty,
        taking the new grid cell at once; a living enemy with a step under
        way then slides toward its target and stops on it once both axes
        are within speed / 2. */
    method Step(m: Map, pick: nat, tile: real)
      requires Shaped(m) && tile > 0.0 && speed >= 0.0
      modifies this`x, this`y, this`gridX, this`gridY, this`movingTo, this`targetX, this`targetY
      ensures old(Aligned(tile)) ==> Aligned(tile)
      ensures alive == old(alive)
      ensures var h := DIRECTIONS[pick % 4];
        var gx, gy := old(gridX) + h.DX(), old(gridY) + h.DY();
        if old(alive) && old(movingTo) == Idle && InBounds(gx, gy) && m[gy][gx] == TILE_EMPTY then
          gridX == gx && gridY == gy
        else
          gridX == old(gridX) && gridY == old(gridY)
      ensures !old(alive) ==> unchanged(this)
    {
      if alive && movingTo == Idle {
        Wander(m, pick, tile);
      }
      if alive && movingTo.Moving? {
        Advance(tile);
      }
    }

    /** The random step: latch the target and the grid cell of the chosen
        neighbour when it is on the map and empty. */
    method Wander(m: Map, pick: nat, tile: real)
      requires Shaped(m) && tile > 0.0 && movingTo == Idle
      modifies this`gridX, this`gridY, this`movingTo, this`targetX, this`targetY
      ensures old(Aligned(tile)) ==> Aligned(tile)
      ensures var h := DIRECTIONS[pick % 4];
        var gx, gy := old(gridX) + h.DX(), old(gridY) + h.DY();
        if InBounds(gx, gy) && m[gy][gx] == TILE_EMPTY then
          gridX == gx && gridY == gy && movingTo == Moving(h)
        else
          unchanged(this)
    {
      var h := DIRECTIONS[pick % 4];
      var newGridX, newGridY := gridX + h.DX(), gridY + h.DY();
      if 0 <= newGridX < GRID_SIZE && 0 <= newGridY < GRID_SIZE && m[newGridY][newGridX] == TILE_EMPTY {
        targetX, targetY := Px(newGridX, tile), Px(newGridY, tile);
        movingTo := Moving(h);
        gridX, gridY := newGridX, newGridY;
        if old(Aligned(tile)) {
          assert Ahead(h, x, y, targetX, targetY) by {
            Neighbour(old(gridX), old(gridY), h, tile);
          }
        }
      }
    }

    /** The sliding half of the enemy's turn. */
    method Advance(tile: real)
      requires movingTo.Moving? && speed >= 0.0
      modifies this`x, this`y, this`movingTo
      ensures old(Aligned(tile)) ==> Aligned(tile)
      ensures var p := Slide(old(movingTo).dir, old(x), old(y), targetX, targetY, speed);
        if Near(p.0, p.1, targetX, targetY, speed / 2.0) then
          x == targetX && y == targetY && movingTo == Idle
        else
          x == p.0 && y == p.1 && movingTo == old(movingTo)
    {
      var p := Slide(movingTo.dir, x, y, targetX, targetY, speed);
      x, y := p.0, p.1;
      var tolerance := speed / 2.0;
      if Near(x, y, targetX, targetY, tolerance) {
        x, y := targetX, targetY;
        movingTo := Idle;
      }
    }
  }

  /** The pixel position of a cell's neighbour along `h` lies ahead of the
      cell's own pixel position. */
  lemma Neighbour(gx: int, gy: int, h: Heading, tile: real)
    requires tile > 0.0
    ensures Ahead(h, Px(gx, tile), Px(gy, tile), Px(gx + h.DX(), tile), Px(gy + h.DY(), tile))
  {
    match h
    case Up => assert Px(gy - 1, tile) == Px(gy, tile) - tile;
    case Down => assert Px(gy + 1, tile) == Px(gy, tile) + tile;
    case Left => assert Px(gx - 1, tile) == Px(gx, tile) - tile;
    case Right => assert Px(gx + 1, tile) == Px(gx, tile) + tile;
  }
}
