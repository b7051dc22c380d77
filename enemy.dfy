/** The enemies of the class-based engine (js/game_objects/enemy.js): a stats
    table per type, a decision taken every `moveInterval` milliseconds while
    standing still, an escape from live blasts that overrides the type's
    policy, and three policies (random walk, chase the player, patrol).

    The source reads the level through the global `gameLevel`; here what an
    enemy reads of it is passed in: the tile grid, a view of each bomb
    (`BombView`) and the player's pixel position.  Each call of Math.random
    becomes a caller-supplied `pick`; an index into a list of n candidates is
    `pick % n`, as Math.floor(Math.random() * n) is some index below n. */
module EnemyEntity {
  import opened Grid

  /** What an enemy sees of one bomb of gameLevel.bombs. */
  datatype BombView = BombView(exploded: bool, finished: bool, tiles: seq<Cell>)

  // ---------------------------------------------------------------------
  // The stats table (getSpeed, getStartingLives, getMoveInterval)

  /** Enemy.getSpeed: pixels per 60 Hz frame. */
  function SpeedOf(kind: string): (r: real)
    ensures kind == "skeleton" ==> r == 1.0
    ensures kind == "ghost" ==> r == 1.5
    ensures kind == "demon" ==> r == 0.8
    ensures kind != "skeleton" && kind != "ghost" && kind != "demon" ==> r == 1.0
  {
    match kind
    case "skeleton" => 1.0
    case "ghost" => 1.5
    case "demon" => 0.8
    case _ => 1.0
  }

  /** Enemy.getStartingLives */
  function StartingLives(kind: string): (r: int)
    ensures kind == "skeleton" ==> r == 1
    ensures kind == "ghost" ==> r == 2
    ensures kind == "demon" ==> r == 3
    ensures kind != "skeleton" && kind != "ghost" && kind != "demon" ==> r == 1
  {
    match kind
    case "skeleton" => 1
    case "ghost" => 2
    case "demon" => 3
    case _ => 1
  }

  /** Enemy.getMoveInterval: milliseconds between two decisions. */
  function MoveInterval(kind: string): (r: real)
    ensures kind == "skeleton" ==> r == 1000.0
    ensures kind == "ghost" ==> r == 800.0
    ensures kind == "demon" ==> r == 1200.0
    ensures kind != "skeleton" && kind != "ghost" && kind != "demon" ==> r == 1000.0
  {
    match kind
    case "skeleton" => 1000.0
    case "ghost" => 800.0
    case "demon" => 1200.0
    case _ => 1000.0
  }

  /** Every type starts alive, moves forward and decides at a positive pace;
      a type the table does not know gets the skeleton's stats. */
  lemma StatsTable(kind: string)
    ensures SpeedOf(kind) > 0.0 && StartingLives(kind) >= 1 && MoveInterval(kind) > 0.0
    ensures kind != "ghost" && kind != "demon" ==>
      SpeedOf(kind) == SpeedOf("skeleton") && StartingLives(kind) == StartingLives("skeleton") &&
      MoveInterval(kind) == MoveInterval("skeleton")
  {
  }

  // ---------------------------------------------------------------------
  // Safety and candidate moves

  /** (c) lies in the blast of a bomb that has exploded and not finished. */
  ghost predicate InLiveBlast(bombs: seq<BombView>, c: Cell) {
    exists i, j :: 0 <= i < |bombs| && bombs[i].exploded && !bombs[i].finished &&
                   0 <= j < |bombs[i].tiles| && bombs[i].tiles[j] == c
  }

  /** Enemy.isTileSafe: scan the bombs for a live blast covering the cell. */
  method IsTileSafe(bombs: seq<BombView>, gridX: int, gridY: int) returns (safe: bool)
    ensures safe <==> !InLiveBlast(bombs, Cell(gridX, gridY))
  {
    for i := 0 to |bombs|
      invariant forall i', j ::
        (0 <= i' < i && bombs[i'].exploded && !bombs[i'].finished && 0 <= j < |bombs[i'].tiles|) ==>
          bombs[i'].tiles[j] != Cell(gridX, gridY)
    {
      var bomb := bombs[i];
      if bomb.exploded && !bomb.finished {
        for j := 0 to |bomb.tiles|
          invariant forall j' :: 0 <= j' < j ==> bomb.tiles[j'] != Cell(gridX, gridY)
        {
          var tile := bomb.tiles[j];
          if gridX == tile.x && gridY == tile.y {
            return false;
          }
        }
      }
    }
    return true;
  }

  /** The neighbour of (c) in direction (d) is open. */
  predicate Open(grid: TileGrid, c: Cell, d: Dir)
    requires WellFormed(grid)
  {
    CanMoveTo(grid, c.x + d.DX(), c.y + d.DY())
  }

  /** The directions of `ds`, in order, whose neighbouring cell is open. */
  function OpenDirs(grid: TileGrid, c: Cell, ds: seq<Dir>): (r: seq<Dir>)
    requires WellFormed(grid)
    ensures |r| <= |ds|
  {
    if ds == [] then []
    else
      var d := ds[|ds| - 1];
      OpenDirs(grid, c, ds[..|ds| - 1]) +
      (if Open(grid, c, d) then [d] else [])
  }

  /** The directions of `ds`, in order, whose neighbouring cell is open and
      outside every live blast. */
  ghost function SafeDirs(grid: TileGrid, bombs: seq<BombView>, c: Cell, ds: seq<Dir>): (r: seq<Dir>)
    requires WellFormed(grid)
    ensures |r| <= |ds|
  {
    if ds == [] then []
    else
      var d := ds[|ds| - 1];
      SafeDirs(grid, bombs, c, ds[..|ds| - 1]) +
      (if Open(grid, c, d) && !InLiveBlast(bombs, Step(c, d, 1)) then [d] else [])
  }

  /** A candidate list holds exactly the directions that pass its test. */
  lemma {:induction false} OpenDirsExactly(grid: TileGrid, c: Cell, ds: seq<Dir>, d: Dir)
    requires WellFormed(grid)
    ensures d in OpenDirs(grid, c, ds) <==> d in ds && Open(grid, c, d)
  {
    if ds != [] {
      OpenDirsExactly(grid, c, ds[..|ds| - 1], d);
      assert ds == ds[..|ds| - 1] + [ds[|ds| - 1]];
    }
  }

  lemma {:induction false} SafeDirsExactly(grid: TileGrid, bombs: seq<BombView>, c: Cell, ds: seq<Dir>, d: Dir)
    requires WellFormed(grid)
    ensures d in SafeDirs(grid, bombs, c, ds) <==>
      d in ds && Open(grid, c, d) && !InLiveBlast(bombs, Step(c, d, 1))
  {
    if ds != [] {
      var pre, last := ds[..|ds| - 1], ds[|ds| - 1];
      SafeDirsExactly(grid, bombs, c, pre, d);
      assert ds == pre + [last];
      assert d in ds <==> d in pre || d == last;
      var keep := Open(grid, c, last) && !InLiveBlast(bombs, Step(c, last, 1));
      assert SafeDirs(grid, bombs, c, ds) == SafeDirs(grid, bombs, c, pre) + (if keep then [last] else []);
    }
  }

  /** The candidate list of determineNextMove's escape: the neighbours of
      (c), in the order up, down, left, right, that are open and safe. */
  method SafeMoves(grid: TileGrid, bombs: seq<BombView>, c: Cell) returns (safeMoves: seq<Dir>)
    requires WellFormed(grid)
    ensures safeMoves == SafeDirs(grid, bombs, c, DIRECTIONS)
  {
    safeMoves := [];
    var directions := DIRECTIONS;
    for k := 0 to |directions|
      invariant safeMoves == SafeDirs(grid, bombs, c, directions[..k])
    {
      var d := directions[k];
      var nextX, nextY := c.x, c.y;
      match d {
        case Up => nextY := nextY - 1;
        case Down => nextY := nextY + 1;
        case Left => nextX := nextX - 1;
        case Right => nextX := nextX + 1;
      }
      assert directions[..k + 1][..k] == directions[..k];
      if CanMoveTo(grid, nextX, nextY) {
        var safeThere := IsTileSafe(bombs, nextX, nextY);
        if safeThere {
          safeMoves := safeMoves + [d];
        }
      }
    }
    assert directions[..|directions|] == DIRECTIONS;
  }

  /** The first direction of `tries`, from index `k` on, whose neighbouring
      cell is open. */
  function FirstOpen(grid: TileGrid, c: Cell, tries: seq<Dir>, k: nat := 0): (r: Option<Dir>)
    requires WellFormed(grid)
    ensures r.Some? ==> r.value in tries && Open(grid, c, r.value)
    ensures r.None? ==> forall i :: k <= i < |tries| ==> !Open(grid, c, tries[i])
    decreases |tries| - k
  {
    if k >= |tries| then None
    else if Open(grid, c, tries[k]) then Some(tries[k])
    else FirstOpen(grid, c, tries, k + 1)
  }

  // ---------------------------------------------------------------------
  // chasePlayer's and patrolMove's orders of preference

  /** chasePlayer's first two choices: along the axis of the larger distance
      to the player (ties go vertical), then along the other axis. */
  function ChaseAxes(dx: real, dy: real): (r: (Dir, Dir))
    ensures (r.0 == Left || r.0 == Right) <==> Abs(dx) > Abs(dy)
    ensures (r.0 == Left || r.0 == Right) <==> (r.1 == Up || r.1 == Down)
    ensures r.0 == Right <==> Abs(dx) > Abs(dy) && dx > 0.0
    ensures r.0 == Down <==> Abs(dx) <= Abs(dy) && dy > 0.0
    ensures r.1 == Right <==> Abs(dx) <= Abs(dy) && dx > 0.0
    ensures r.1 == Down <==> Abs(dx) > Abs(dy) && dy > 0.0
  {
    if Abs(dx) > Abs(dy) then
      ((if dx > 0.0 then Right else Left), (if dy > 0.0 then Down else Up))
    else
      ((if dy > 0.0 then Down else Up), (if dx > 0.0 then Right else Left))
  }

  /** The first open direction among chasePlayer's three ordered tries. */
  function ChaseFirst(grid: TileGrid, c: Cell, dx: real, dy: real): (r: Option<Dir>)
    requires WellFormed(grid)
  {
    var axes := ChaseAxes(dx, dy);
    FirstOpen(grid, c, [axes.0, axes.1, axes.1.Reverse()])
  }

  function Abs(v: real): (r: real)
    ensures r >= 0.0 && (r == v || r == -v)
  {
    if v < 0.0 then -v else v
  }

  /** The perpendicular turn patrolMove tries first, picked at random from
      its two `possibleTurns`; the other turn it tries is this one reversed. */
  function PatrolTurn(d: Dir, pick: nat): (r: Dir)
    ensures r.DX() == 0 <==> d.DX() != 0
  {
    var turns := if d == Up || d == Down then [Left, Right] else [Up, Down];
    turns[pick % 2]
  }

  /** The order in which patrolMove should try directions: straight on, one
      perpendicular, the other perpendicular, then back. */
  function PatrolOrder(d: Dir, pick: nat): (r: seq<Dir>)
    ensures |r| == 4 && r[0] == d && r[3] == d.Reverse()
    ensures r[1].DX() == 0 <==> d.DX() != 0
    ensures r[2] == r[1].Reverse()
  {
    var turn := PatrolTurn(d, pick);
    [d, turn, turn.Reverse(), d.Reverse()]
  }

  /** The order in which patrolMove as written tries directions: its last
      try reverses `this.direction` after the two failed turns have
      overwritten it, so it repeats the first turn. */
  function PatrolOrderAsWritten(d: Dir, pick: nat): (r: seq<Dir>)
    ensures |r| == 4 && r[0] == d && r[3] == r[1]
  {
    var turn := PatrolTurn(d, pick);
    [d, turn, turn.Reverse(), turn.Reverse().Reverse()]
  }

  /** The intended patrol order tries every direction once. */
  lemma PatrolOrderTriesEveryDirection(d: Dir, pick: nat, e: Dir)
    ensures e in PatrolOrder(d, pick)
  {
    var r := PatrolOrder(d, pick);
    assert e == r[0] || e == r[1] || e == r[2] || e == r[3] by {
      match e {
        case Up =>
        case Down =>
        case Left =>
        case Right =>
      }
    }
  }

  /** As written, patrolMove never tries to turn back: every order it can
      follow misses the reverse of the patrol direction. */
  lemma PatrolAsWrittenNeverReverses(d: Dir, pick: nat)
    ensures d.Reverse() !in PatrolOrderAsWritten(d, pick)
    ensures d.Reverse() in PatrolOrder(d, pick)
  {
    var turn := PatrolTurn(d, pick);
    assert turn.DX() == 0 <==> d.DX() != 0;
  }

  /** In a dead end, where only the way back is open, patrolMove as written
      finds no move while the intended order turns the enemy round. */
  lemma PatrolDeadEnd(grid: TileGrid, c: Cell, d: Dir, pick: nat)
    requires WellFormed(grid)
    requires forall e: Dir :: Open(grid, c, e) <==> e == d.Reverse()
    ensures FirstOpen(grid, c, PatrolOrderAsWritten(d, pick)) == None
    ensures FirstOpen(grid, c, PatrolOrder(d, pick)) == Some(d.Reverse())
  {
    PatrolAsWrittenNeverReverses(d, pick);
    var w := PatrolOrderAsWritten(d, pick);
    assert forall i :: 0 <= i < 4 ==> !Open(grid, c, w[i]);
    var r := PatrolOrder(d, pick);
    assert !Open(grid, c, r[0]) && !Open(grid, c, r[1]) && !Open(grid, c, r[2]);
    assert FirstOpen(grid, c, r) == FirstOpen(grid, c, r, 3);
  }

  // ---------------------------------------------------------------------
  // The enemy object

  const INVINCIBILITY_DURATION: real := 300.0

  /** What a blast looks at and changes on an enemy: where it stands and its
      health. */
  datatype EnemyState = EnemyState(x: real, y: real, lives: int, isInvincible: bool, invincibilityTimer: real)

  /** The cell an enemy in state `s` counts as standing on. */
  function CellOf(s: EnemyState): Cell {
    Cell(CellIndex(s.x), CellIndex(s.y))
  }

  /** Enemy.takeDamage on an enemy in state `s`: ignored while it is
      invincible, otherwise one life is lost and a 300 ms invincibility window
      opens; the enemy does not move. */
  function AfterHit(s: EnemyState): EnemyState {
    if s.isInvincible then s
    else s.(lives := s.lives - 1, isInvincible := true, invincibilityTimer := INVINCIBILITY_DURATION)
  }
  /** The frame length enemy movement is normalised to (60 frames per second). */
  const FRAME_MS: real := 16.67

  class Enemy {
    var x: real
    var y: real
    /** The source's `type` field. */
    const kind: string
    const speed: real
    var lives: int
    var direction: Dir
    var moving: bool
    var targetX: real
    var targetY: real
    var moveTimer: real
    const moveInterval: real
    var moveProgress: real
    var isInvincible: bool
    var invincibilityTimer: real

    constructor (x0: real, y0: real, kind0: string)
      ensures x == x0 && y == y0 && kind == kind0
      ensures speed == SpeedOf(kind0) && lives == StartingLives(kind0) && moveInterval == MoveInterval(kind0)
      ensures direction == Down && !moving && targetX == x0 && targetY == y0
      ensures moveTimer == 0.0 && moveProgress == 0.0 && !isInvincible && invincibilityTimer == 0.0
    {
      x, y, kind := x0, y0, kind0;
      speed := SpeedOf(kind0);
      lives := StartingLives(kind0);
      direction := Down;
      moving := false;
      targetX, targetY := x0, y0;
      moveTimer := 0.0;
      moveInterval := MoveInterval(kind0);
      moveProgress := 0.0;
      isInvincible := false;
      invincibilityTimer := 0.0;
    }

    /** The cell the enemy counts as standing on. */
    function Here(): Cell
      reads this`x, this`y
    {
      Cell(CellIndex(x), CellIndex(y))
    }

    /** A one-cell motion towards `d` has just been latched. */
    ghost predicate HeadingTo(d: Dir)
      reads this
    {
      moving && direction == d && moveProgress == 0.0 &&
      targetX == (if d.DX() == 0 then x else Pixel(Here().x + d.DX())) &&
      targetY == (if d.DY() == 0 then y else Pixel(Here().y + d.DY()))
    }

    /** Nothing but the facing direction may have changed, and the enemy
        still stands. */
    twostate predicate OnlyTurned()
      reads this
    {
      !moving && x == old(x) && y == old(y) && targetX == old(targetX) && targetY == old(targetY) &&
      moveProgress == old(moveProgress) && lives == old(lives) && moveTimer == old(moveTimer) &&
      isInvincible == old(isInvincible) && invincibilityTimer == old(invincibilityTimer)
    }

    /** Nothing of the enemy's position and motion has changed. */
    twostate predicate Stayed()
      reads this
    {
      x == old(x) && y == old(y) && moving == old(moving) && direction == old(direction) &&
      targetX == old(targetX) && targetY == old(targetY) && moveProgress == old(moveProgress)
    }

    /** The outcome of randomMove: towards the picked open neighbour, or no
        change when none is open. */
    twostate predicate RandomlyMoved(grid: TileGrid, pick: nat)
      requires WellFormed(grid)
      reads this
    {
      var open := OpenDirs(grid, old(Here()), DIRECTIONS);
      (open == [] ==> Stayed()) &&
      (open != [] ==> x == old(x) && y == old(y)) &&
      (open != [] ==> HeadingTo(open[pick % |open|]))
    }

    /** The outcome of chasePlayer: towards the first open one of its three
        tries, else a random move; when nothing is open the enemy faces the
        last direction it tried. */
    twostate predicate Chased(grid: TileGrid, playerX: real, playerY: real, pick: nat)
      requires WellFormed(grid)
      reads this
    {
      var first := ChaseFirst(grid, old(Here()), playerX - old(x), playerY - old(y));
      var open := OpenDirs(grid, old(Here()), DIRECTIONS);
      x == old(x) && y == old(y) &&
      (first.Some? ==> HeadingTo(first.value)) &&
      (first.None? && open == [] ==> !moving && direction == ChaseAxes(playerX - old(x), playerY - old(y)).1.Reverse()) &&
      (first.None? && open != [] ==> HeadingTo(open[pick % |open|]))
    }

    /** The outcome of trying the directions of `order` one after the other:
        towards the first open one, else standing and facing the last. */
    twostate predicate TriedInOrder(grid: TileGrid, order: seq<Dir>)
      requires WellFormed(grid) && |order| > 0
      reads this
    {
      x == old(x) && y == old(y) &&
      match FirstOpen(grid, old(Here()), order)
      case Some(d) => HeadingTo(d)
      case None => !moving && direction == order[|order| - 1]
    }

    /** The outcome of the escape from a live blast: towards the picked open
        and safe neighbour, or no change when there is none. */
    twostate predicate Fled(grid: TileGrid, bombs: seq<BombView>, pick: nat)
      requires WellFormed(grid)
      reads this
    {
      var safe := SafeDirs(grid, bombs, old(Here()), DIRECTIONS);
      (safe == [] ==> Stayed()) &&
      (safe != [] ==> x == old(x) && y == old(y)) &&
      (safe != [] ==> HeadingTo(safe[pick % |safe|]))
    }

    /** The outcome of determineNextMove for an enemy that was standing:
        the escape when it stood in a live blast, otherwise its type's
        policy, the demons' being the patrol as written; any other type
        stays put. */
    twostate predicate Decided(grid: TileGrid, bombs: seq<BombView>, playerX: real, playerY: real, pick: nat)
      requires WellFormed(grid)
      reads this
    {
      if InLiveBlast(bombs, old(Here())) then Fled(grid, bombs, pick)
      else if kind == "skeleton" then RandomlyMoved(grid, pick)
      else if kind == "ghost" then Chased(grid, playerX, playerY, pick)
      else if kind == "demon" then TriedInOrder(grid, PatrolOrderAsWritten(old(direction), pick))
      else Stayed()
    }

    /** Enemy.moveInDirection: latch a move to the neighbouring cell if it is
        open; the direction is recorded even when it is not. */
    method MoveInDirection(d: Dir, grid: TileGrid) returns (moved: bool)
      requires WellFormed(grid)
      modifies this`direction, this`moving, this`targetX, this`targetY, this`moveProgress
      ensures old(moving) ==> !moved && unchanged(this)
      ensures !old(moving) ==>
        direction == d &&
        (moved <==> Open(grid, Here(), d)) &&
        (moved ==> HeadingTo(d)) &&
        (!moved ==> !moving && targetX == old(targetX) && targetY == old(targetY) && moveProgress == old(moveProgress))
    {
      if moving {
        return false;
      }
      direction := d;
      var nextGridX := CellIndex(x);
      var nextGridY := CellIndex(y);
      var potentialTargetX := x;
      var potentialTargetY := y;
      match d {
        case Up => nextGridY := nextGridY - 1; potentialTargetY := Pixel(nextGridY);
        case Down => nextGridY := nextGridY + 1; potentialTargetY := Pixel(nextGridY);
        case Left => nextGridX := nextGridX - 1; potentialTargetX := Pixel(nextGridX);
        case Right => nextGridX := nextGridX + 1; potentialTargetX := Pixel(nextGridX);
      }
      if CanMoveTo(grid, nextGridX, nextGridY) {
        targetX := potentialTargetX;
        targetY := potentialTargetY;
        moving := true;
        moveProgress := 0.0;
        return true;
      } else {
        moving := false;
        return false;
      }
    }

    /** Enemy.randomMove: list the open directions (up, down, left, right)
        and move towards the picked one; stay put when none is open. */
    method RandomMove(grid: TileGrid, pick: nat)
      requires WellFormed(grid)
      modifies this`direction, this`moving, this`targetX, this`targetY, this`moveProgress
      ensures old(moving) ==> unchanged(this)
      ensures !old(moving) ==> RandomlyMoved(grid, pick)
      ensures OpenDirs(grid, old(Here()), DIRECTIONS) == [] ==> unchanged(this)
    {
      var directions := DIRECTIONS;
      var possibleMoves: seq<Dir> := [];
      for k := 0 to |directions|
        invariant possibleMoves == OpenDirs(grid, Here(), directions[..k])
        modifies {}
      {
        var d := directions[k];
        var nextX := CellIndex(x);
        var nextY := CellIndex(y);
        match d {
          case Up => nextY := nextY - 1;
          case Down => nextY := nextY + 1;
          case Left => nextX := nextX - 1;
          case Right => nextX := nextX + 1;
        }
        if CanMoveTo(grid, nextX, nextY) {
          possibleMoves := possibleMoves + [d];
        }
        assert directions[..k + 1][..k] == directions[..k];
      }
      assert directions[..|directions|] == DIRECTIONS;
      if |possibleMoves| > 0 {
        OpenDirsExactly(grid, Here(), DIRECTIONS, possibleMoves[pick % |possibleMoves|]);
        var moved := MoveInDirection(possibleMoves[pick % |possibleMoves|], grid);
      }
    }

    /** Enemy.chasePlayer: try the axis of the larger distance to the player,
        then the other axis, then the other axis reversed, then a random move. */
    method ChasePlayer(grid: TileGrid, playerX: real, playerY: real, pick: nat)
      requires WellFormed(grid)
      modifies this`direction, this`moving, this`targetX, this`targetY, this`moveProgress
      ensures old(moving) ==> unchanged(this)
      ensures !old(moving) ==> Chased(grid, playerX, playerY, pick)
    {
      if moving {
        return;
      }
      var dx := playerX - x;
      var dy := playerY - y;
      var (primaryDir, secondaryDir) := ChaseAxes(dx, dy);
      ghost var here := Here();
      ghost var tries := [primaryDir, secondaryDir, secondaryDir.Reverse()];
      var moved := MoveInDirection(primaryDir, grid);
      if moved {
        return;
      }
      assert !old(moving) ==> FirstOpen(grid, here, tries) == FirstOpen(grid, here, tries, 1);
      moved := MoveInDirection(secondaryDir, grid);
      if moved {
        return;
      }
      assert !old(moving) ==> FirstOpen(grid, here, tries) == FirstOpen(grid, here, tries, 2);
      var tertiaryDir := secondaryDir.Reverse();
      moved := MoveInDirection(tertiaryDir, grid);
      if moved {
        return;
      }
      assert FirstOpen(grid, here, tries).None?;
      RandomMove(grid, pick);
    }

    /** Enemy.patrolMove as the source writes it: the last try reverses
        `this.direction`, which the two failed turns have already changed. */
    method PatrolMoveAsWritten(grid: TileGrid, pick: nat)
      requires WellFormed(grid)
      modifies this`direction, this`moving, this`targetX, this`targetY, this`moveProgress
      ensures old(moving) ==> unchanged(this)
      ensures !old(moving) ==> TriedInOrder(grid, PatrolOrderAsWritten(old(direction), pick))
    {
      ghost var here := Here();
      ghost var tries := PatrolOrderAsWritten(direction, pick);
      var moved := MoveInDirection(direction, grid);
      if !moved {
        assert !old(moving) ==> !Open(grid, here, tries[0]);
        assert !old(moving) ==> FirstOpen(grid, here, tries) == FirstOpen(grid, here, tries, 1);
        var turnDir := PatrolTurn(direction, pick);
        moved := MoveInDirection(turnDir, grid);
        if !moved {
          assert !old(moving) ==> FirstOpen(grid, here, tries) == FirstOpen(grid, here, tries, 2);
          var otherTurnDir := turnDir.Reverse();
          moved := MoveInDirection(otherTurnDir, grid);
          if !moved {
            assert !old(moving) ==> FirstOpen(grid, here, tries) == FirstOpen(grid, here, tries, 3);
            var reverseDir := direction.Reverse();
            moved := MoveInDirection(reverseDir, grid);
          }
        }
      }
    }

    /** Enemy.patrolMove with the evident intent: the last try reverses the
        direction the enemy was patrolling in. */
    method PatrolMove(grid: TileGrid, pick: nat)
      requires WellFormed(grid)
      modifies this`direction, this`moving, this`targetX, this`targetY, this`moveProgress
      ensures old(moving) ==> unchanged(this)
      ensures !old(moving) ==> TriedInOrder(grid, PatrolOrder(old(direction), pick))
    {
      ghost var here := Here();
      ghost var tries := PatrolOrder(direction, pick);
      var patrolDir := direction;
      var moved := MoveInDirection(direction, grid);
      if !moved {
        assert !old(moving) ==> !Open(grid, here, tries[0]);
        assert !old(moving) ==> FirstOpen(grid, here, tries) == FirstOpen(grid, here, tries, 1);
        var turnDir := PatrolTurn(direction, pick);
        moved := MoveInDirection(turnDir, grid);
        if !moved {
          assert !old(moving) ==> FirstOpen(grid, here, tries) == FirstOpen(grid, here, tries, 2);
          var otherTurnDir := turnDir.Reverse();
          moved := MoveInDirection(otherTurnDir, grid);
          if !moved {
            assert !old(moving) ==> FirstOpen(grid, here, tries) == FirstOpen(grid, here, tries, 3);
            var reverseDir := patrolDir.Reverse();
            moved := MoveInDirection(reverseDir, grid);
          }
        }
      }
    }

    /** The escape branch of Enemy.determineNextMove: list the neighbours
        that are open and outside every live blast (up, down, left, right)
        and move towards the picked one; stay trapped when there is none. */
    method FleeBlast(grid: TileGrid, bombs: seq<BombView>, pick: nat)
      requires WellFormed(grid) && !moving
      modifies this`direction, this`moving, this`targetX, this`targetY, this`moveProgress
      ensures Fled(grid, bombs, pick)
      ensures SafeDirs(grid, bombs, old(Here()), DIRECTIONS) == [] ==> unchanged(this)
      ensures moving ==> Open(grid, old(Here()), direction)
    {
      var currentGridX := CellIndex(x);
      var currentGridY := CellIndex(y);
      var safeMoves := SafeMoves(grid, bombs, Cell(currentGridX, currentGridY));
      if |safeMoves| > 0 {
        var chosenDir := safeMoves[pick % |safeMoves|];
        SafeDirsExactly(grid, bombs, Here(), DIRECTIONS, chosenDir);
        var moved := MoveInDirection(chosenDir, grid);
      }
    }

    /** Enemy.determineNextMove: an enemy standing in a live blast flees it;
        otherwise its type decides: skeletons walk at random, ghosts chase the
        player, demons patrol (patrolMove as written, with the reverse try
        that repeats the first turn), and any other type stays put. */
    method DetermineNextMove(grid: TileGrid, bombs: seq<BombView>, playerX: real, playerY: real, pick: nat)
      requires WellFormed(grid)
      modifies this`direction, this`moving, this`targetX, this`targetY, this`moveProgress
      ensures old(moving) ==> unchanged(this)
      ensures !old(moving) ==> Decided(grid, bombs, playerX, playerY, pick)
      ensures !old(moving) && !InLiveBlast(bombs, old(Here())) ==>
        (kind != "skeleton" && kind != "ghost" && kind != "demon" ==> unchanged(this))
      ensures x == old(x) && y == old(y)
      // a move is only ever latched towards an open neighbour
      ensures moving && !old(moving) ==> Open(grid, Here(), direction)
    {
      if moving {
        return;
      }
      var currentGridX := CellIndex(x);
      var currentGridY := CellIndex(y);
      var here := Cell(currentGridX, currentGridY);
      var safeHere := IsTileSafe(bombs, currentGridX, currentGridY);
      if !safeHere {
        FleeBlast(grid, bombs, pick);
        return;
      }
      if kind == "skeleton" {
        RandomMove(grid, pick);
        if moving {
          OpenDirsExactly(grid, here, DIRECTIONS, direction);
        }
      } else if kind == "ghost" {
        ChasePlayer(grid, playerX, playerY, pick);
        if moving {
          OpenDirsExactly(grid, here, DIRECTIONS, direction);
        }
      } else if kind == "demon" {
        PatrolMoveAsWritten(grid, pick);
      }
    }

    /** One step of `amount` pixels along `direction` from (x0, y0), stopped at
        the target: the position never passes the target while a motion lasts. */
    ghost predicate Short(x0: real, y0: real, amount: real)
      reads this
    {
      match direction
      case Up => x == x0 && y == (if y0 - amount < targetY then targetY else y0 - amount) && y >= targetY
      case Down => x == x0 && y == (if y0 + amount > targetY then targetY else y0 + amount) && y <= targetY
      case Left => y == y0 && x == (if x0 - amount < targetX then targetX else x0 - amount) && x >= targetX
      case Right => y == y0 && x == (if x0 + amount > targetX then targetX else x0 + amount) && x <= targetX
    }

    /** The motion half of Enemy.update: progress by `amount`; once a whole
        tile is covered the enemy stands exactly on its target. */
    method AdvanceMotion(amount: real)
      requires moving
      modifies this`x, this`y, this`moving, this`moveProgress
      ensures old(moveProgress) + amount >= GRID_SIZE ==>
        x == targetX && y == targetY && !moving && moveProgress == 0.0
      ensures old(moveProgress) + amount < GRID_SIZE ==>
        moving && moveProgress == old(moveProgress) + amount && Short(old(x), old(y), amount)
    {
      moveProgress := moveProgress + amount;
      if moveProgress >= GRID_SIZE {
        x := targetX;
        y := targetY;
        moving := false;
        moveProgress := 0.0;
      } else {
        match direction {
          case Up => y := y - amount;
          case Down => y := y + amount;
          case Left => x := x - amount;
          case Right => x := x + amount;
        }
        if (direction == Up && y < targetY) || (direction == Down && y > targetY) {
          y := targetY;
        }
        if (direction == Left && x < targetX) || (direction == Right && x > targetX) {
          x := targetX;
        }
      }
    }

    /** Enemy.update (movement and timers): count the invincibility window
        down; advance a motion in progress by speed * deltaTime / 16.67;
        otherwise accumulate the move timer and take a decision once it
        reaches moveInterval, restarting the timer. */
    method Update(deltaTime: real, grid: TileGrid, bombs: seq<BombView>, playerX: real, playerY: real, pick: nat)
      requires WellFormed(grid)
      modifies this
      ensures isInvincible == (old(isInvincible) && old(invincibilityTimer) - deltaTime > 0.0)
      ensures invincibilityTimer ==
        if old(isInvincible) then old(invincibilityTimer) - deltaTime else old(invincibilityTimer)
      ensures lives == old(lives)
      ensures old(moving) ==>
        moveTimer == old(moveTimer) &&
        var amount := speed * (deltaTime / FRAME_MS);
        if old(moveProgress) + amount >= GRID_SIZE then
          x == old(targetX) && y == old(targetY) && !moving && moveProgress == 0.0
        else
          moving && moveProgress == old(moveProgress) + amount && Short(old(x), old(y), amount)
      // a decision is taken exactly when the timer reaches the interval while standing
      ensures !old(moving) && old(moveTimer) + deltaTime < moveInterval ==>
        moveTimer == old(moveTimer) + deltaTime && !moving && x == old(x) && y == old(y) &&
        direction == old(direction) && targetX == old(targetX) && targetY == old(targetY)
      ensures !old(moving) && old(moveTimer) + deltaTime >= moveInterval ==>
        moveTimer == 0.0 && x == old(x) && y == old(y) &&
        Decided(grid, bombs, playerX, playerY, pick) &&
        (moving ==> Open(grid, Here(), direction))
    {
      if isInvincible {
        invincibilityTimer := invincibilityTimer - deltaTime;
        if invincibilityTimer <= 0.0 {
          isInvincible := false;
        }
      }
      if moving {
        var moveAmount := speed * (deltaTime / FRAME_MS);
        AdvanceMotion(moveAmount);
      } else {
        moveTimer := moveTimer + deltaTime;
        if moveTimer >= moveInterval {
          moveTimer := 0.0;
          DetermineNextMove(grid, bombs, playerX, playerY, pick);
        }
      }
    }

    /** The enemy's position and health; its cell is the one it stands on. */
    function State(): (r: EnemyState)
      reads this`x, this`y, this`lives, this`isInvincible, this`invincibilityTimer
      ensures CellOf(r) == Here() && r.lives == lives
    {
      EnemyState(x, y, lives, isInvincible, invincibilityTimer)
    }

    /** The enemy's own part of Enemy.takeDamage. `died` reports that the hit
        took the last life, upon which the level removes the enemy and scores
        it. */
    method TakeDamage() returns (died: bool)
      modifies this`lives, this`isInvincible, this`invincibilityTimer
      ensures State() == AfterHit(old(State()))
      ensures died <==> !old(isInvincible) && lives <= 0
    {
      if isInvincible {
        return false;
      }
      lives := lives - 1;
      isInvincible := true;
      invincibilityTimer := INVINCIBILITY_DURATION;
      died := lives <= 0;
    }
  }
}
