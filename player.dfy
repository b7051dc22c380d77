/** The player of the class-based engine (js/game_objects/player.js): grid-locked
    movement interpolated over frames, lives with a short invincibility window
    after each hit, a bomb inventory and powerups. */
module PlayerEntity {
  import opened Grid

  /** What Player.placeBomb hands to the Bomb constructor: the bomb's pixel
      position (the player's cell, snapped) and its power (the player's range). */
  datatype BombSpec = BombSpec(x: real, y: real, power: int)

  /** A player's lives and invincibility window. */
  datatype Health = Health(lives: int, isInvincible: bool, invincibilityTimer: real)

  /** Player.takeDamage on health `h`: a life is lost and a `window` ms
      invincibility window opens, but only when lives are left and no window
      is open; otherwise nothing changes. */
  function Hit(h: Health, window: real): Health {
    if h.lives > 0 && !h.isInvincible then Health(h.lives - 1, true, window) else h
  }

  const SPEED_CAP: real := 5.0
  const SPEED_STEP: real := 0.5

  /** What powerups change on a player: its speed, bomb stock and range, and
      the collectedPowerups tallies. */
  datatype Kit = Kit(speed: real, maxBombs: int, bombCount: int, bombRange: int,
                     collectedSpeed: int, collectedBomb: int, collectedRange: int)

  /** The kit after picking up one powerup of type `kind`; unknown kinds
      change nothing. */
  function Pick(k: Kit, kind: string): Kit {
    if kind == "speed" then
      k.(speed := Min(k.speed + SPEED_STEP, SPEED_CAP), collectedSpeed := k.collectedSpeed + 1)
    else if kind == "bomb" then
      k.(maxBombs := k.maxBombs + 1, bombCount := k.bombCount + 1, collectedBomb := k.collectedBomb + 1)
    else if kind == "range" then
      k.(bombRange := k.bombRange + 1, collectedRange := k.collectedRange + 1)
    else k
  }

  class Player {
    var x: real
    var y: real
    var speed: real
    var direction: Dir
    var lives: int
    var bombCount: int
    var bombRange: int
    var maxBombs: int
    var moving: bool
    var targetX: real
    var targetY: real
    var moveProgress: real
    /** collectedPowerups.speed / .bomb / .range */
    var collectedSpeed: int
    var collectedBomb: int
    var collectedRange: int
    var isInvincible: bool
    var invincibilityTimer: real
    const invincibilityDuration: real := 500.0

    /** The player stays on the grid, its motion target too, its speed is
        positive and its lives never drop below zero. */
    ghost predicate Valid()
      reads this`x, this`y, this`moving, this`targetX, this`targetY, this`speed, this`lives
    {
      OnGridPixels(x, y) && (moving ==> OnGridPixels(targetX, targetY)) &&
      speed > 0.0 && lives >= 0
    }

    constructor (x0: real, y0: real)
      ensures x == x0 && y == y0 && speed == 3.0 && direction == Down
      ensures lives == 3 && bombCount == 1 && bombRange == 1 && maxBombs == 1
      ensures !moving && targetX == x0 && targetY == y0 && moveProgress == 0.0
      ensures collectedSpeed == 0 && collectedBomb == 0 && collectedRange == 0
      ensures !isInvincible && invincibilityTimer == 0.0
      ensures OnGridPixels(x0, y0) ==> Valid()
    {
      x, y := x0, y0;
      speed := 3.0;
      direction := Down;
      lives := 3;
      bombCount := 1;
      bombRange := 1;
      maxBombs := 1;
      moving := false;
      targetX, targetY := x0, y0;
      moveProgress := 0.0;
      collectedSpeed, collectedBomb, collectedRange := 0, 0, 0;
      isInvincible := false;
      invincibilityTimer := 0.0;
    }

    /** The cell the player counts as standing on (Math.round of its pixels). */
    function Here(): Cell
      reads this`x, this`y
    {
      Cell(CellIndex(x), CellIndex(y))
    }

    /** Player.move: start a one-cell motion unless one is in progress. The
        direction is recorded even when the target cell is blocked. */
    method Move(d: Dir, grid: TileGrid)
      requires Valid() && WellFormed(grid)
      modifies this`direction, this`moving, this`targetX, this`targetY, this`moveProgress
      ensures Valid()
      ensures old(moving) ==> unchanged(this)
      ensures !old(moving) ==>
        var next := Step(Here(), d, 1);
        direction == d &&
        (moving <==> CanMoveTo(grid, next.x, next.y)) &&
        (moving ==>
          moveProgress == 0.0 &&
          targetX == (if d.DX() == 0 then x else Pixel(next.x)) &&
          targetY == (if d.DY() == 0 then y else Pixel(next.y))) &&
        (!moving ==> targetX == old(targetX) && targetY == old(targetY) && moveProgress == old(moveProgress))
    {
      if moving {
        return;
      }
      direction := d;
      var nextGridX := CellIndex(x);
      var nextGridY := CellIndex(y);
      var potentialTargetX := x;
      var potentialTargetY := y;
      match d {
        case Up =>
          nextGridY := nextGridY - 1;
          potentialTargetY := Pixel(nextGridY);
        case Down =>
          nextGridY := nextGridY + 1;
          potentialTargetY := Pixel(nextGridY);
        case Left =>
          nextGridX := nextGridX - 1;
          potentialTargetX := Pixel(nextGridX);
        case Right =>
          nextGridX := nextGridX + 1;
          potentialTargetX := Pixel(nextGridX);
      }
      if CanMoveTo(grid, nextGridX, nextGridY) {
        targetX := potentialTargetX;
        targetY := potentialTargetY;
        moving := true;
        moveProgress := 0.0;
      } else {
        moving := false;
      }
    }

    /** Player.stop: end any motion and snap to the nearest cell. */
    method Stop()
      requires Valid()
      modifies this`x, this`y, this`moving, this`moveProgress
      ensures Valid()
      ensures !moving && moveProgress == 0.0
      ensures x == Pixel(CellIndex(old(x))) && y == Pixel(CellIndex(old(y)))
      ensures Here() == old(Here())
    {
      CellOfOnGridPixels(x, y);
      moving := false;
      moveProgress := 0.0;
      x := Pixel(CellIndex(x));
      y := Pixel(CellIndex(y));
      CellIndexOfPixel(CellIndex(old(x)));
      CellIndexOfPixel(CellIndex(old(y)));
    }

    /** Player.update: count the invincibility window down, then advance a
        motion in progress by `speed`. */
    method Update(deltaTime: real)
      requires Valid()
      modifies this`x, this`y, this`moving, this`moveProgress, this`isInvincible, this`invincibilityTimer
      ensures Valid()
      ensures isInvincible == (old(isInvincible) && old(invincibilityTimer) - deltaTime > 0.0)
      ensures invincibilityTimer ==
        if old(isInvincible) then old(invincibilityTimer) - deltaTime else old(invincibilityTimer)
      ensures !old(moving) ==> x == old(x) && y == old(y) && !moving && moveProgress == old(moveProgress)
      ensures old(moving) && old(moveProgress) + speed >= GRID_SIZE ==>
        x == targetX && y == targetY && !moving && moveProgress == 0.0
      ensures old(moving) && old(moveProgress) + speed < GRID_SIZE ==>
        moving && moveProgress == old(moveProgress) + speed && Short(old(x), old(y))
    {
      if isInvincible {
        invincibilityTimer := invincibilityTimer - deltaTime;
        if invincibilityTimer <= 0.0 {
          isInvincible := false;
        }
      }
      if moving {
        AdvanceMotion();
      }
    }

    /** One step of `speed` pixels along `direction` from (x0, y0), stopped at
        the target: the position never passes the target while a motion lasts. */
    ghost predicate Short(x0: real, y0: real)
      reads this
    {
      match direction
      case Up => x == x0 && y == (if y0 - speed < targetY then targetY else y0 - speed) && y >= targetY
      case Down => x == x0 && y == (if y0 + speed > targetY then targetY else y0 + speed) && y <= targetY
      case Left => y == y0 && x == (if x0 - speed < targetX then targetX else x0 - speed) && x >= targetX
      case Right => y == y0 && x == (if x0 + speed > targetX then targetX else x0 + speed) && x <= targetX
    }

    /** The motion half of Player.update: the progress grows by `speed`; once
        it reaches a whole tile the player stands exactly on the target. */
    method AdvanceMotion()
      requires Valid() && moving
      modifies this`x, this`y, this`moving, this`moveProgress
      ensures Valid()
      ensures old(moveProgress) + speed >= GRID_SIZE ==>
        x == targetX && y == targetY && !moving && moveProgress == 0.0
      ensures old(moveProgress) + speed < GRID_SIZE ==>
        moving && moveProgress == old(moveProgress) + speed && Short(old(x), old(y))
    {
      var moveAmount := speed;
      moveProgress := moveProgress + moveAmount;
      if moveProgress >= GRID_SIZE {
        x := targetX;
        y := targetY;
        moving := false;
        moveProgress := 0.0;
      } else {
        Slide();
      }
    }

    /** The sliding half of a motion step: `speed` pixels along `direction`,
        clamped at the target. */
    method Slide()
      requires Valid() && moving
      modifies this`x, this`y
      ensures Valid() && Short(old(x), old(y))
    {
      var moveAmount := speed;
      match direction {
        case Up => y := y - moveAmount;
        case Down => y := y + moveAmount;
        case Left => x := x - moveAmount;
        case Right => x := x + moveAmount;
      }
      if (direction == Up && y < targetY) || (direction == Down && y > targetY) {
        y := targetY;
      }
      if (direction == Left && x < targetX) || (direction == Right && x > targetX) {
        x := targetX;
      }
    }

    /** The player's lives and invincibility window. */
    function Status(): (r: Health)
      reads this`lives, this`isInvincible, this`invincibilityTimer
      ensures r.lives == lives && r.isInvincible == isInvincible
    {
      Health(lives, isInvincible, invincibilityTimer)
    }

    /** Player.takeDamage: lose a life only when some are left and the
        invincibility window is closed; a hit opens the window again. */
    method TakeDamage()
      requires Valid()
      modifies this`lives, this`isInvincible, this`invincibilityTimer
      ensures Valid() && Status() == Hit(old(Status()), invincibilityDuration)
    {
      if lives > 0 && !isInvincible {
        lives := lives - 1;
        isInvincible := true;
        invincibilityTimer := invincibilityDuration;
      }
    }

    /** Player.placeBomb: a bomb is handed out only while the player has one in
        stock, fewer than maxBombs are ticking and the player's cell is floor;
        only a successful placement costs a bomb. */
    method PlaceBomb(grid: TileGrid, activeBombs: int) returns (bomb: Option<BombSpec>)
      requires Valid() && WellFormed(grid)
      modifies this`bombCount
      ensures InBounds(CellIndex(x), CellIndex(y))
      ensures bomb.Some? <==>
        old(bombCount) > 0 && activeBombs < maxBombs && grid[CellIndex(y)][CellIndex(x)] == FLOOR
      ensures bomb.Some? ==>
        bombCount == old(bombCount) - 1 &&
        bomb.value == BombSpec(Pixel(CellIndex(x)), Pixel(CellIndex(y)), bombRange)
      ensures bomb.None? ==> bombCount == old(bombCount)
    {
      CellOfOnGridPixels(x, y);
      if bombCount > 0 && activeBombs < maxBombs {
        bombCount := bombCount - 1;
        var gridX := CellIndex(x);
        var gridY := CellIndex(y);
        if grid[gridY][gridX] != FLOOR {
          bombCount := bombCount + 1;
          return None;
        }
        return Some(BombSpec(Pixel(gridX), Pixel(gridY), bombRange));
      } else {
        return None;
      }
    }

    /** Player.returnBomb: an exploded bomb goes back into stock. */
    method ReturnBomb()
      modifies this`bombCount
      ensures bombCount == old(bombCount) + 1
    {
      bombCount := bombCount + 1;
    }

    ghost function Gear(): Kit
      reads this`speed, this`maxBombs, this`bombCount, this`bombRange
      reads this`collectedSpeed, this`collectedBomb, this`collectedRange
    {
      Kit(speed, maxBombs, bombCount, bombRange, collectedSpeed, collectedBomb, collectedRange)
    }

    /** Player.addPowerup: count the known kinds and apply their effect. */
    method AddPowerup(kind: string)
      requires Valid()
      modifies this`collectedSpeed, this`collectedBomb, this`collectedRange
      modifies this`speed, this`maxBombs, this`bombCount, this`bombRange
      ensures Valid()
      ensures collectedSpeed == old(collectedSpeed) + (if kind == "speed" then 1 else 0)
      ensures collectedBomb == old(collectedBomb) + (if kind == "bomb" then 1 else 0)
      ensures collectedRange == old(collectedRange) + (if kind == "range" then 1 else 0)
      ensures speed == if kind == "speed" then Min(old(speed) + SPEED_STEP, SPEED_CAP) else old(speed)
      ensures maxBombs == old(maxBombs) + (if kind == "bomb" then 1 else 0)
      ensures bombCount == old(bombCount) + (if kind == "bomb" then 1 else 0)
      ensures bombRange == old(bombRange) + (if kind == "range" then 1 else 0)
      ensures Gear() == Pick(old(Gear()), kind)
    {
      if kind == "speed" {
        collectedSpeed := collectedSpeed + 1;
      } else if kind == "bomb" {
        collectedBomb := collectedBomb + 1;
      } else if kind == "range" {
        collectedRange := collectedRange + 1;
      }
      if kind == "speed" {
        speed := Min(speed + SPEED_STEP, SPEED_CAP);
      } else if kind == "bomb" {
        maxBombs := maxBombs + 1;
        bombCount := bombCount + 1;
      } else if kind == "range" {
        bombRange := bombRange + 1;
      }
    }
  }

  /** Math.min */
  function Min(a: real, b: real): (r: real)
    ensures r <= a && r <= b && (r == a || r == b)
  {
    if a <= b then a else b
  }

  /** Two hits inside one invincibility window cost a single life. */
  method HitTwiceWithinWindow(p: Player, deltaTime: real)
    requires p.Valid() && p.lives > 0 && !p.isInvincible
    requires deltaTime < 500.0
    modifies p
    ensures p.Valid() && p.lives == old(p.lives) - 1 && p.isInvincible
  {
    p.TakeDamage();
    p.Update(deltaTime);
    p.TakeDamage();
  }
}
