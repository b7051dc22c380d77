# Yumi PoP: a Bomberman-style game, modelled in Dafny

The repository holds two independent versions of one game: a player walks a
tile grid, lays bombs whose blast runs along the four axes, breaks
destructible blocks and kills enemies.

* The **class-based engine** (`js/game_objects/`) has a `Player`, an `Enemy`,
  a `Bomb` and a `Level` class, with the constants of `js/script.js:2-6`
  (32-pixel tiles on a 25 x 18 grid).  Movement is in pixels, time is a
  `deltaTime` in milliseconds, bombs burn a 3000 ms fuse.  Explosions damage
  the player and the enemies, chain to other bombs through `setTimeout`, and
  broken blocks may drop powerups.  Enemies move by type: random, chasing,
  patrolling, and fleeing live blasts.
* The **self-contained root `script.js`** keeps one `gameState` object on a
  15 x 15 grid.  Bombs explode on `Date.now()`, every enemy and the player
  have a single life, and a blast ends the game when it reaches the player.

The two are modelled separately and never merged, each as its source has it.

* Classes that the source updates in place are Dafny `class`es with those
  fields.  This covers `Player`, `Enemy`, `Bomb` and `Level` of the class
  engine, and the `gameState` object, the player, the bombs and the enemies
  of the root script.
* Their methods carry `modifies` clauses and state the new state.
* Every pure computation is a function, with lemmas about it: the blast
  shape, the initial grid, enemy placement, powerup drops and pick-ups, the
  explosion tiles, and the marker, kill and clean-up bookkeeping.
* JavaScript numbers are Dafny `real`s (exact).
* `Math.round(v)` is `(v + 0.5).Floor` and `Math.floor` is `.Floor`.

Randomness, the clock and the canvas size are parameters:

* `Math.random()` becomes oracle functions: `blocks`, `rolls` and `drops` of
  a level, a `pick` per enemy decision, `crate` for `generateMap`, and
  `picks` for the root script's enemies.
* `Date.now()` becomes `now: int`.
* `TILE_SIZE` becomes `tile: real`.

Modules:

| module | file | models |
|---|---|---|
| `Grid` | grid.dfy | constants of js/script.js, directions, cells, `canMoveTo` |
| `PlayerEntity` | player.dfy | js/game_objects/player.js |
| `EnemyEntity` | enemy.dfy | js/game_objects/enemy.js |
| `BombBlast` | bomb_blast.dfy | the blast of `Bomb.createExplosionTiles` as a function |
| `LevelSpec` | level_spec.dfy | initial grid, enemy placement, drops and pick-ups of level.js as functions |
| `LevelEngine` | level_engine.dfy | the `Bomb` and `Level` classes (they call each other) |
| `ScriptMap` | script_map.dfy | `generateMap`, `ensureEmptyTile`, `getExplosionTiles` of script.js |
| `ScriptEntities` | script_entities.dfy | `createPlayer`, `createBomb`, `createExplosion`, `createEnemy` and their motion |
| `ScriptRules` | script_rules.dfy | explosion markers, block clearing, kills and list clean-up as functions |
| `ScriptGame` | script_game.dfy | the `gameState` object and the functions that change it |

## Model

| member | source | states |
|---|---|---|
| Grid.Reverse | js/game_objects/enemy.js:245-260 | the opposite direction negates both offsets and differs from the direction |
| Grid.Round | js/game_objects/level.js:261-266 | Math.round: the result lies within half a unit of the argument (v - 0.5 < r <= v + 0.5) |
| Grid.CellIndexOfPixel | js/game_objects/level.js:225 | the cell index of a cell's pixel corner (x * GRID_SIZE) is the cell itself |
| Grid.FloorIndexInTile | js/game_objects/level.js:207-217 | every pixel inside tile i floors to i |
| Grid.CellOfOnGridPixels | js/game_objects/level.js:261-266 | a position on the grid rounds to an in-bounds cell whose corner is again on the grid |
| Grid.CanMoveTo | js/game_objects/player.js:27-33 | true exactly when the cell is inside the grid and is floor (tile 0) |
| Grid.SetTile | js/game_objects/level.js:220 | the new grid has the tile at (x, y) and every other cell unchanged |
| PlayerEntity.Player.constructor | js/game_objects/player.js:2-25 | the player starts at the given pixels, at rest and facing down, with 3 lives, 1 bomb of 1 at most, range 1, speed 3, no powerups and no invincibility |
| PlayerEntity.Player.Move | js/game_objects/player.js:35-73 | while moving nothing changes; otherwise the direction is set, and the player starts moving exactly when the next cell can be entered, with a target one cell away |
| PlayerEntity.Player.Stop | js/game_objects/player.js:75-81 | the player snaps to its current cell and stops; its cell does not change |
| PlayerEntity.Player.Update | js/game_objects/player.js:83-117 | invincibility counts down by deltaTime and ends at 0; a moving player's progress grows by its speed per frame; it snaps onto the target and stops once progress reaches GRID_SIZE, and otherwise never passes the target |
| PlayerEntity.Player.AdvanceMotion | js/game_objects/player.js:92-116 | the movement half of update: progress grows by speed; at GRID_SIZE the player is on the target and at rest, otherwise it slides without passing the target |
| PlayerEntity.Player.Slide | js/game_objects/player.js:103-114 | a step along the direction that stops at the target and closes the gap by the step |
| PlayerEntity.Player.TakeDamage | js/game_objects/player.js:157-168 | a player with lives left and no invincibility loses one life and starts an invincibility window of invincibilityDuration (500 ms); otherwise nothing changes |
| PlayerEntity.Player.PlaceBomb | js/game_objects/player.js:170-190 | a bomb comes back exactly when the player has a bomb, fewer than maxBombs active and stands on floor; it sits on the player's rounded cell with the player's range; the bomb count drops by one only then |
| PlayerEntity.Player.ReturnBomb | js/game_objects/player.js:192-195 | the bomb count grows by one; nothing else changes |
| PlayerEntity.Player.AddPowerup | js/game_objects/player.js:197-219 | the tally of a known kind grows by one; speed +0.5 capped at 5, bomb raises both the stock and maxBombs, range +1; unknown kinds change nothing |
| PlayerEntity.Min | js/game_objects/player.js:206 | Math.min: the result is one of the arguments and at most both |
| PlayerEntity.HitTwiceWithinWindow | js/game_objects/player.js:85-90 | a second hit inside the invincibility window started by the first costs no life |
| EnemyEntity.SpeedOf | js/game_objects/enemy.js:292-303 | skeleton 1, ghost 1.5, demon 0.8, anything else 1; always positive |
| EnemyEntity.StartingLives | js/game_objects/enemy.js:305-312 | skeleton 1, ghost 2, demon 3, anything else 1 |
| EnemyEntity.MoveInterval | js/game_objects/enemy.js:329-340 | skeleton 1000, ghost 800, demon 1200, anything else 1000 ms |
| EnemyEntity.StatsTable | js/game_objects/enemy.js:292-340 | every type has positive speed, lives and interval; an unknown type has the skeleton's |
| EnemyEntity.IsTileSafe | js/game_objects/enemy.js:342-357 | safe exactly when no bomb that has exploded and not finished has the cell among its blast tiles |
| EnemyEntity.OpenDirs | js/game_objects/enemy.js:204-219 | the open directions, in input order: never more than the input |
| EnemyEntity.SafeDirs | js/game_objects/enemy.js:169-179 | the safe directions, in input order: never more than the input |
| EnemyEntity.OpenDirsExactly | js/game_objects/enemy.js:204-219 | a direction is open exactly when it is listed and its neighbour can be entered |
| EnemyEntity.SafeDirsExactly | js/game_objects/enemy.js:169-179 | a direction is safe exactly when it is listed, enterable and outside every live blast |
| EnemyEntity.SafeMoves | js/game_objects/enemy.js:169-179 | the loop collects exactly SafeDirs of the four directions |
| EnemyEntity.FirstOpen | js/game_objects/enemy.js:246-258 | the first enterable direction of a list, or none when no entry can be entered |
| EnemyEntity.ChaseAxes | js/game_objects/enemy.js:224-236 | the preferred axis is the one with the larger distance, ties go vertical; both steps head toward the player |
| EnemyEntity.Abs | js/game_objects/enemy.js:227 | Math.abs: non-negative, equal to the argument or its negation |
| EnemyEntity.PatrolTurn | js/game_objects/enemy.js:250-252 | the turn is perpendicular to the current direction |
| EnemyEntity.PatrolOrder | js/game_objects/enemy.js:245-260 | the corrected order: the current direction, the turn, the opposite turn, then back |
| EnemyEntity.PatrolOrderAsWritten | js/game_objects/enemy.js:255-256 | as written, the fourth try repeats the second |
| EnemyEntity.PatrolOrderTriesEveryDirection | js/game_objects/enemy.js:245-260 | the corrected order holds all four directions, once each |
| EnemyEntity.PatrolAsWrittenNeverReverses | js/game_objects/enemy.js:255-256 | as written, the order never tries the way back |
| EnemyEntity.PatrolDeadEnd | js/game_objects/enemy.js:245-260 | in a dead end the as-written patrol finds no move, while the corrected one turns back |
| EnemyEntity.Enemy.constructor | js/game_objects/enemy.js:2-18 | the enemy starts at rest, facing down, on its pixels with its type's speed, lives and move interval, not invincible |
| EnemyEntity.Enemy.MoveInDirection | js/game_objects/enemy.js:262-290 | a moving enemy is unchanged; otherwise the direction is set, and the enemy moves exactly when the neighbour can be entered, with that neighbour as target |
| EnemyEntity.Enemy.RandomMove | js/game_objects/enemy.js:204-219 | the move is the drawn entry of OpenDirs, or none when no direction is open |
| EnemyEntity.Enemy.ChasePlayer | js/game_objects/enemy.js:221-243 | the primary direction, then the secondary, then the secondary's reverse, then a random open move; only into an enterable cell |
| EnemyEntity.Enemy.PatrolMoveAsWritten | js/game_objects/enemy.js:245-260 | the first enterable entry of the as-written order |
| EnemyEntity.Enemy.PatrolMove | js/game_objects/enemy.js:245-260 | the first enterable entry of the corrected order |
| EnemyEntity.Enemy.FleeBlast | js/game_objects/enemy.js:167-189 | an enemy in a live blast takes the drawn safe direction; with none safe it stays |
| EnemyEntity.Enemy.DetermineNextMove | js/game_objects/enemy.js:161-202 | an enemy in a live blast flees; otherwise skeletons move randomly, ghosts chase, demons patrol as written (the tries of `PatrolOrderAsWritten`, whose last repeats the first turn) and other types stay; it never moves off its pixels in this call |
| EnemyEntity.Enemy.AdvanceMotion | js/game_objects/enemy.js:79-98 | a moving enemy's progress grows by speed * deltaTime / 16.67; it snaps onto the target and stops once progress reaches GRID_SIZE, and otherwise never passes the target |
| EnemyEntity.Enemy.Update | js/game_objects/enemy.js:71-105 | invincibility counts down and no life is lost; a moving enemy advances; an idle one adds deltaTime to its move timer and, once the interval is reached, resets it and takes the decision of determineNextMove (the escape from a live blast, else its type's policy, with the demons' patrol as written), only ever heading into an open cell |
| EnemyEntity.Enemy.State | js/game_objects/enemy.js:314-327 | the state holds the enemy's cell and its lives |
| EnemyEntity.Enemy.TakeDamage | js/game_objects/enemy.js:314-327 | an invincible enemy is unchanged; otherwise one life is lost and a 300 ms invincibility starts; died exactly when that hit leaves no life |
| BombBlast.Arm | js/game_objects/bomb.js:119-146 | at most power - i + 1 cells, each the next step along the direction and inside the grid |
| BombBlast.ArmPassesThrough | js/game_objects/bomb.js:119-146 | every cell but the last of an arm was floor |
| BombBlast.ArmEnds | js/game_objects/bomb.js:133-137 | an arm ends at a wall (included), a destructible block (included), the grid edge or the range |
| BombBlast.WalkStart | js/game_objects/bomb.js:119-146 | the walk of one direction starts empty at distance 1 |
| BombBlast.WalkOn | js/game_objects/bomb.js:119-146 | a floor cell in range extends the arm by itself |
| BombBlast.WalkOff | js/game_objects/bomb.js:127-130 | a cell off the grid or past the range ends the arm, which destroys nothing |
| BombBlast.WalkInto | js/game_objects/bomb.js:133-143 | a wall or destructible cell is added and ends the arm |
| BombBlast.Destroyed | js/game_objects/bomb.js:138-141 | an arm destroys at most one cell, a destructible cell of the arm |
| BombBlast.AfterArm | js/game_objects/bomb.js:138-141 | after an arm the destroyed cell is floor and every other cell is unchanged |
| BombBlast.Spread | js/game_objects/bomb.js:104-148 | the blast starts with the centre, its other tiles are in bounds, and the grid stays well-formed |
| BombBlast.SpreadStep | js/game_objects/bomb.js:117-147 | one more direction appends its arm |
| BombBlast.SpreadLength | js/game_objects/bomb.js:104-148 | a blast has at most 1 + directions * power cells |
| BombBlast.StepOnCross | js/game_objects/bomb.js:119-146 | every step from the centre lies on its cross |
| BombBlast.ArmOnCross | js/game_objects/bomb.js:119-146 | every arm cell lies on the cross within range |
| BombBlast.SpreadCells | js/game_objects/bomb.js:104-148 | every blast cell is in bounds and on the cross within range |
| BombBlast.ExplosionShape | js/game_objects/bomb.js:104-148 | the first tile is the centre; at most 1 + 4 * power tiles; all the others on the cross within range |
| BombBlast.SpreadGrid | js/game_objects/bomb.js:138-141 | the destroyed cells are destructible blast tiles; exactly they become floor |
| BombBlast.ExplosionGrid | js/game_objects/bomb.js:104-148 | walls survive every blast; a changed cell was destructible and is now floor |
| LevelSpec.InitialGrid | js/game_objects/level.js:11-74 | a well-formed GRID_HEIGHT x GRID_WIDTH grid whose every cell is the tile the layout rules give for the draws |
| LevelSpec.InitialGridLayout | js/game_objects/level.js:21-68 | border and pillars are walls, the start area is floor, blocks never on a border, pillar or start cell, walls independent of the draws |
| LevelSpec.InitialGridIs | js/game_objects/level.js:11-74 | the grid the loops build cell by cell is InitialGrid of the draws |
| LevelSpec.Attempt | js/game_objects/level.js:80-96 | a spot an attempt yields is always free: floor, outside the start corner, of a known type |
| LevelSpec.AttemptIs | js/game_objects/level.js:80-96 | the draw gives an inner cell and a known type; the attempt yields that spot exactly when the cell is floor and outside the start corner |
| LevelSpec.Placed | js/game_objects/level.js:76-99 | after n attempts at most n and at most count spots, each a free floor spot |
| LevelSpec.PlacedStep | js/game_objects/level.js:83-97 | one more attempt while enemies are missing appends its spot exactly when the drawn cell is floor outside the start corner |
| LevelSpec.Spots | js/game_objects/level.js:76-99 | at most 100 attempts, at most count enemies |
| LevelSpec.PlacedFull | js/game_objects/level.js:83 | once count enemies are placed no later attempt adds another |
| LevelSpec.PlacedOnFloor | js/game_objects/level.js:86-92 | every placed enemy is on floor, outside the 4 x 4 start corner, of a known type |
| LevelSpec.DropAt | js/game_objects/level.js:219-227 | at most one powerup, at the block's pixel corner, of type speed, bomb or range |
| LevelSpec.Drops | js/game_objects/level.js:219-227 | never more powerups than destroyed blocks |
| LevelSpec.DropsNone | js/game_objects/level.js:219-227 | no destroyed block, no drop |
| LevelSpec.DropsOne | js/game_objects/level.js:219-227 | one destroyed block drops what its draw says |
| LevelSpec.DropsAppend | js/game_objects/level.js:219-227 | one more destroyed block appends its own drop |
| LevelSpec.Remaining | js/game_objects/level.js:240-253 | a powerup remains exactly when it was there and is not on the player's cell |
| LevelSpec.Count | js/game_objects/level.js:240-253 | the number of powerups of a kind on the cell: zero exactly when none lies there |
| LevelSpec.SpeedAfterCapped | js/game_objects/player.js:205-207 | after n speed pickups the speed is min(speed + 0.5n, 5) |
| LevelSpec.RemainingStep | js/game_objects/level.js:241-252 | one backward turn keeps or drops the last powerup |
| LevelSpec.GatherStep | js/game_objects/level.js:241-252 | one backward turn applies at most that powerup to the kit |
| LevelSpec.GatherSpeed | js/game_objects/level.js:240-253 | the speed after a pick-up pass is the capped sum of the speed powerups on the cell |
| LevelSpec.GatherBombs | js/game_objects/level.js:240-253 | the bomb stock and maxBombs grow by the number of bomb powerups on the cell |
| LevelSpec.GatherRange | js/game_objects/level.js:240-253 | the range grows by the number of range powerups on the cell |
| LevelEngine.IndexOf | js/game_objects/level.js:234 | Array.indexOf: the first position holding the value, or -1 exactly when it is absent |
| LevelEngine.IndexOfDistinct | js/game_objects/level.js:234 | in a list without repeats, indexOf finds each element at its own position |
| LevelEngine.Alive | js/game_objects/bomb.js:181-198 | the enemies with lives left, in order, never more than before |
| LevelEngine.AliveExactly | js/game_objects/bomb.js:181-198 | an enemy stays exactly when it was listed and has a life left |
| LevelEngine.Unfinished | js/game_objects/level.js:115-123 | the bombs not finished, in order, never more than before |
| LevelEngine.UnfinishedExactly | js/game_objects/level.js:115-123 | a bomb stays exactly when it was listed and is not finished |
| LevelEngine.UnfinishedDistinct | js/game_objects/level.js:115-123 | removing finished bombs keeps the list free of repeats |
| LevelEngine.ActiveBombs | js/game_objects/player.js:171 | the number of unexploded bombs: at most the list, and 0 exactly when every bomb exploded |
| LevelEngine.Triggered | js/game_objects/bomb.js:150-171 | the bombs a blast chains to: never more than the list |
| LevelEngine.TriggeredExactly | js/game_objects/bomb.js:150-171 | a bomb is triggered exactly when it is another, unexploded bomb of the list whose cell is in the blast |
| LevelEngine.TriggeredFrom | js/game_objects/bomb.js:150-171 | every triggered bomb belongs to the level's list |
| LevelEngine.TriggeredSelf | js/game_objects/bomb.js:150-171 | the bomb's own flag does not change which bombs it triggers |
| LevelEngine.Bomb.constructor | js/game_objects/bomb.js:2-12 | a bomb at the given pixels with a 3000 ms fuse, a 500 ms explosion, no blast yet, not exploded |
| LevelEngine.Bomb.Update | js/game_objects/bomb.js:14-28 | an unexploded bomb burns deltaTime of fuse and explodes exactly when the fuse is spent; an exploded one shows its explosion and finishes after 500 ms |
| LevelEngine.Bomb.Burn | js/game_objects/bomb.js:15-20 | the fuse shrinks by deltaTime; explodes exactly when it reaches 0 |
| LevelEngine.Bomb.Show | js/game_objects/bomb.js:21-27 | the explosion timer grows by deltaTime; finished once it reaches the duration |
| LevelEngine.Bomb.Explode | js/game_objects/bomb.js:89-102 | a second call changes nothing; the first lays out the blast, damages, chains and returns the bomb to its owner |
| LevelEngine.Bomb.CreateExplosionTiles | js/game_objects/bomb.js:104-148 | the blast tiles and the new grid are BombBlast's explosion of the old grid; destroyed blocks drop their powerups |
| LevelEngine.Bomb.WalkArm | js/game_objects/bomb.js:119-146 | the loop over one direction produces exactly the arm and its destroyed blocks |
| LevelEngine.Bomb.CheckDamage | js/game_objects/bomb.js:173-212 | every enemy in the blast takes one hit, the dead ones leave for 100 points each; the player is hit exactly when its cell is in the blast |
| LevelEngine.Bomb.CheckPlayer | js/game_objects/bomb.js:200-211 | the player is hit exactly when its rounded cell is a blast tile |
| LevelEngine.Bomb.CheckEnemies | js/game_objects/bomb.js:181-198 | the level keeps exactly the enemies left alive; the score grows by 100 per removed enemy |
| LevelEngine.Bomb.CheckEnemyAt | js/game_objects/bomb.js:182-197 | one enemy is struck when its cell is in the blast and spliced out when it dies |
| LevelEngine.Bomb.StrikeEnemy | js/game_objects/bomb.js:190-194 | a struck enemy takes a hit; when it dies it leaves the list and the score grows by 100 |
| LevelEngine.Bomb.InBlast | js/game_objects/bomb.js:185-189 | hit exactly when the cell is one of the blast tiles |
| LevelEngine.Bomb.CheckChainReactions | js/game_objects/bomb.js:150-171 | the pending queue gains exactly the triggered bombs, in list order |
| LevelEngine.Level.constructor | js/game_objects/level.js:2-9 | a new level has the initial grid, the player at (1, 1), the placed enemies and empty bomb and powerup lists |
| LevelEngine.Level.InitializeGrid | js/game_objects/level.js:11-74 | the grid is InitialGrid, the player stands at cell (1, 1), and the enemies are the placed spots, in order |
| LevelEngine.Level.FillFloor | js/game_objects/level.js:14-19 | a full grid of floor |
| LevelEngine.Level.AddOuterWalls | js/game_objects/level.js:21-29 | the border becomes wall; the rest stays floor |
| LevelEngine.Level.AddInnerWalls | js/game_objects/level.js:31-36 | every even-even inner cell becomes wall |
| LevelEngine.Level.ClearStartArea | js/game_objects/level.js:44-46 | the start cells become floor; every other cell is kept |
| LevelEngine.Level.ScatterBlocks | js/game_objects/level.js:52-63 | an inner floor cell outside the start area becomes destructible exactly when its draw says so |
| LevelEngine.Level.AddEnemies | js/game_objects/level.js:76-99 | the enemies added are exactly the Spots of the draws, in order, each fresh |
| LevelEngine.Level.PlaceEnemy | js/game_objects/level.js:89-92 | one fresh enemy of the drawn type on the drawn cell is appended |
| LevelEngine.Level.Snapshot | js/game_objects/bomb.js:173-212 | the snapshot holds the player, its cell and health, the enemies, their states and the score |
| LevelEngine.Level.Schedule | js/game_objects/bomb.js:166 | the pending queue grows by the timeouts, in order |
| LevelEngine.Level.DestroyBlock | js/game_objects/level.js:219-227 | the cell becomes floor and the draw's powerup, if any, is appended |
| LevelEngine.Level.RemoveEnemy | js/game_objects/level.js:233-238 | the first occurrence is spliced out, an absent enemy changes nothing; a list without repeats loses exactly that enemy |
| LevelEngine.Level.DamageEnemy | js/game_objects/enemy.js:314-327 | the enemy takes a hit; when no life is left it leaves the level and the score grows by 100 |
| LevelEngine.Level.DamagePlayer | js/game_objects/bomb.js:200-211 | the level's player takes one hit; no enemy changes |
| LevelEngine.Level.IsWall | js/game_objects/level.js:207-211 | true exactly when the floored cell of the pixel is in bounds and a wall |
| LevelEngine.Level.IsDestructible | js/game_objects/level.js:213-217 | true exactly when the floored cell of the pixel is in bounds and destructible |
| LevelEngine.Level.TileQuery | js/game_objects/level.js:207-217 | every pixel of a tile asks about that tile, and no tile is both wall and destructible |
| LevelEngine.Level.AddBomb | js/game_objects/level.js:229-231 | the bomb is appended |
| LevelEngine.Level.CheckWinCondition | js/game_objects/level.js:255-257 | won exactly when no enemy is left |
| LevelEngine.Level.CheckPlayerEnemyCollisions | js/game_objects/level.js:260-275 | the player takes one hit exactly when some enemy shares its rounded cell, however many do |
| LevelEngine.Level.CheckPowerupCollisions | js/game_objects/level.js:240-253 | the powerups on the player's floored cell are removed and applied to its kit; the others stay |
| LevelEngine.Level.PowerupTurn | js/game_objects/level.js:241-252 | one backward turn of the pick-up loop |
| LevelEngine.Level.Update | js/game_objects/level.js:101-129 | the bombs left are exactly the unfinished ones; no new enemy appears; no powerup is left on the player's cell |
| LevelEngine.Level.UpdateItems | js/game_objects/level.js:114-128 | bombs, then powerups: finished bombs leave, powerups on the player's cell are taken |
| LevelEngine.Level.UpdateActors | js/game_objects/level.js:102-112 | the player and the enemies move; no enemy is lost |
| LevelEngine.Level.UpdatePlayer | js/game_objects/level.js:103-107 | the player loses a life exactly when an enemy shares its cell and it is alive and not invincible |
| LevelEngine.Level.UpdateEnemies | js/game_objects/level.js:110-112 | no enemy loses a life and every invincibility window counts down |
| LevelEngine.Level.UpdateEnemy | js/game_objects/level.js:111 | one enemy's turn of the loop |
| LevelEngine.Level.UpdateBombs | js/game_objects/level.js:115-123 | every bomb burns once, walking backwards; the finished ones leave the list |
| LevelEngine.Level.BombLoopDone | js/game_objects/level.js:115-123 | past position 0 the list is exactly the unfinished bombs |
| LevelEngine.Level.UpdateBomb | js/game_objects/level.js:116-122 | one bomb's turn: update, then splice when finished |
| LevelEngine.Level.RemoveIfFinished | js/game_objects/level.js:119-122 | a finished bomb is spliced out, an unfinished one kept |
| LevelEngine.Level.DropBomb | js/game_objects/level.js:121 | splice(i, 1) of the bomb list |
| LevelEngine.Level.TickBomb | js/game_objects/level.js:117 | bomb.update: the fuse, the flag and the explosion timer move as Bomb.Update says |
| LevelEngine.Level.FireTimeout | js/game_objects/bomb.js:166 | a queued chain explosion of an exploded bomb does nothing; an unexploded one explodes and returns its bomb |
| LevelEngine.Level.PopPending | js/game_objects/bomb.js:166 | the oldest queued bomb leaves the queue |
| LevelEngine.Level.PlaceBomb | js/script.js:282-287 | a bomb is added exactly when Player.placeBomb allows it, on the player's cell with its range and a fresh fuse |
| LevelEngine.Level.PlaceAndExplode | js/game_objects/player.js:192-195 | placing a bomb and exploding it leaves the player's stock as it was |
| ScriptMap.Round | script.js:290-291 | Math.round: the result lies within half a unit of the argument |
| ScriptMap.GenerateMap | script.js:614-636 | a full 15 x 15 map: border and even-even cells indestructible, the rest destructible exactly when drawn |
| ScriptMap.Emptied | script.js:605-611 | an in-map destructible tile becomes empty; nothing else changes |
| ScriptMap.EmptiedKeeps | script.js:605-611 | off the map or on an indestructible tile nothing changes; emptying twice is emptying once; walls are kept |
| ScriptMap.ArmShape | script.js:228-253 | an arm stops before an indestructible tile or the edge and includes a destructible tile as its last |
| ScriptMap.ArmEnd | script.js:240-250 | the arm ends exactly at the range, a wall, the edge, or just after a block |
| ScriptMap.Arms | script.js:228-253 | at most power tiles per direction; none is the centre, all are on the map and none is indestructible |
| ScriptMap.ExplosionTiles | script.js:222-256 | the centre is absent; at most 4 * power tiles, all on the map and none indestructible |
| ScriptMap.GetExplosionTiles | script.js:222-256 | the loop computes exactly ExplosionTiles |
| ScriptMap.ArmTiles | script.js:229-252 | the inner loop computes exactly one arm |
| ScriptEntities.Slide | script.js:276-286 | a step toward the target that never passes it and closes the gap by the speed |
| ScriptEntities.RoundPx | script.js:290-291 | Math.round of a tile's pixel over TILE_SIZE is the tile index |
| ScriptEntities.Player.constructor | script.js:39-56 | a living player at rest on its tile's pixels with speed 3, one bomb and power 1 |
| ScriptEntities.Player.Advance | script.js:266-296 | near the target the player snaps onto it, stops, and takes the cell Math.round(target / TILE_SIZE), one cell over from where it started; otherwise it slides one step; it stays aligned |
| ScriptEntities.Bomb.constructor | script.js:59-71 | an unexploded bomb of the given power, started at now, not yet due |
| ScriptEntities.CreateExplosion | script.js:81-88 | a marker not yet expired at now and expired 500 ms later |
| ScriptEntities.Enemy.constructor | script.js:91-107 | a living enemy at rest on its tile's pixels with speed 2 |
| ScriptEntities.Enemy.Step | script.js:343-393 | a dead enemy is unchanged; an idle one takes the drawn direction when the neighbour is on the map and empty; a moving one advances; its grid cell becomes the neighbour as soon as the step is latched, and it stays aligned |
| ScriptEntities.Enemy.Wander | script.js:344-365 | the drawn direction is taken exactly when its neighbour is on the map and empty |
| ScriptEntities.Enemy.Advance | script.js:367-392 | the enemy slides toward its target and snaps onto it when near, then is idle |
| ScriptEntities.Neighbour | script.js:157-165 | a neighbour's pixel position lies ahead of the cell's own along the heading |
| ScriptRules.Count | script.js:190-194 | a tile has a marker exactly when it counts as exploding |
| ScriptRules.AddMarkers | script.js:190-194 | the old markers come first and each tile adds at most one marker |
| ScriptRules.MarkerCount | script.js:190-194 | a blast tile that was not exploding gets one marker; no tile ends with a duplicate from the blast |
| ScriptRules.Cleared | script.js:197-200 | the map keeps its shape |
| ScriptRules.ClearedExactly | script.js:197-200 | a destructible blast tile becomes empty; nothing else changes |
| ScriptRules.Kills | script.js:202-209 | a blast kills at most as many enemies as there are |
| ScriptRules.KillsStep | script.js:202-209 | one more tile adds the living enemies it catches |
| ScriptRules.Struck | script.js:202-209 | the enemies after a blast: the same cells, dead when caught |
| ScriptRules.KillsAreDeaths | script.js:202-209 | the kills are exactly the enemies turned from alive to dead: 100 points each, once |
| ScriptRules.LiveExactly | script.js:308-313 | a marker stays exactly when it was listed and has not expired |
| ScriptRules.LiveStep | script.js:308-313 | one backward turn keeps or drops one marker |
| ScriptRules.UnspentExactly | script.js:218 | a bomb stays exactly when it was listed and is not spent; no repeats appear |
| ScriptRules.UnspentFrees | script.js:139-147 | after the clean-up the bomb guard blocks a cell exactly when an unspent bomb is there |
| ScriptRules.UnspentStep | script.js:298-305 | one backward turn keeps or drops one bomb |
| ScriptGame.GameState.constructor | script.js:26-34 | an empty, unstarted game with score 0 |
| ScriptGame.GameState.EnsureEmptyTile | script.js:605-611 | the map becomes Emptied of the old map |
| ScriptGame.GameState.TryMovePlayer | script.js:151-170 | the player heads for the neighbour exactly when it is on the map and empty, and stays aligned |
| ScriptGame.GameState.PlaceBomb | script.js:173-178 | one fresh bomb is appended at the cell with the power and owner; the owner's stock drops by one |
| ScriptGame.GameState.HandleInput | script.js:122-148 | a bomb is placed exactly when the game runs, the key is down, a bomb is in hand and no bomb is on the cell; the player only steers from rest |
| ScriptGame.GameState.Steer | script.js:126-136 | a player at rest heads for the first pressed direction it can enter |
| ScriptGame.GameState.BombKey | script.js:139-147 | the bomb guard: place exactly when a bomb is in hand and no bomb of the list is on the cell |
| ScriptGame.GameState.ExplodeBomb | script.js:181-219 | the bomb is exploded; markers, cleared blocks, killed enemies and 100 points per kill follow ExplosionTiles of the old map; the owner gets the bomb back |
| ScriptGame.GameState.Blast | script.js:185-210 | the centre marker, then the per-tile markers, blocks and enemies of the blast |
| ScriptGame.GameState.BlastTiles | script.js:190-210 | the forEach over the tiles: AddMarkers, Cleared, the caught enemies die, 100 points per kill |
| ScriptGame.GameState.Retire | script.js:182 | the bomb is exploded and its owner's stock grows by one |
| ScriptGame.GameState.BlastTile | script.js:190-209 | one tile of the forEach |
| ScriptGame.GameState.HitEnemies | script.js:202-209 | the living enemies on the tile die; the score grows by 100 for each |
| ScriptGame.GameState.ExplodeDue | script.js:299-305 | a bomb is exploded afterwards exactly when it was already or its fuse is due |
| ScriptGame.GameState.FireIfDue | script.js:300-304 | one backward turn of the bomb loop |
| ScriptGame.GameState.ExpireExplosions | script.js:308-313 | the markers kept are exactly the live ones, in order |
| ScriptGame.GameState.CheckPlayerExplosion | script.js:318-325 | a living player on an exploding tile dies and the game is over; otherwise nothing changes |
| ScriptGame.GameState.CheckPlayerEnemy | script.js:331-340 | a living player sharing its cell with a living enemy dies and the game is over |
| ScriptGame.GameState.MoveEnemies | script.js:343-393 | every enemy takes its step with its own draw; the enemy list is unchanged |
| ScriptGame.GameState.StepEnemy | script.js:344-392 | one enemy's turn of the loop |
| ScriptGame.GameState.Update | script.js:259-394 | as written: bombs are only ever appended, so a cell once bombed stays blocked; game over is permanent; nothing happens before the start or after game over; within a running game every bomb already planted has exploded once its fuse is due, and no expired explosion marker is left |
| ScriptGame.GameState.UpdateRetiringBombs | script.js:218 | the frame followed by the announced removal: no spent bomb is left and every unspent bomb stays |
| ScriptGame.GameState.RetireBombs | script.js:298-305 | in a running game the spent bombs leave and the unspent ones stay |
| ScriptGame.GameState.RemoveSpentBombs | script.js:298-305 | the bombs left are exactly Unspent of the old list |
| ScriptGame.GameState.DropIfSpent | script.js:298-305 | one backward turn of the clean-up loop |
| ScriptGame.GameState.Frame | script.js:265-394 | the part of update after the input: the state stays valid, game over stays over, every bomb has exploded once due and no expired marker is left; the collisions and the enemy steps are not carried up |
| ScriptGame.GameState.MovePlayer | script.js:265-296 | invariant only: the game state stays valid while a living moving player slides on (the slide is stated by `ScriptEntities.Player.Advance`) |
| ScriptGame.GameState.BombsAndBlasts | script.js:298-313 | each bomb has exploded afterwards exactly when it already had or its fuse is due; no expired explosion marker is left; the state stays valid |
| ScriptGame.GameState.Collide | script.js:316-340 | the player dies, and the game is over, exactly when the living player stood on an explosion marker or shared its cell with a living enemy; otherwise nothing changes |
| ScriptGame.GameState.EnemyTurns | script.js:342-393 | invariant only: the game state stays valid through the enemy loop (the steps are stated by `ScriptGame.GameState.MoveEnemies`) |

## Left out

- Rendering is not modelled. This covers `render`, `updateAnimation`, sprites, canvas drawing, `console.log` and `showGameOver`.
- `js/game.js`, `js/ui.js`, `js/wallet.js`, `js/sprite_manager.js`, `js/game_objects/level_designs.js`, `js/game_objects/powerup.js` (only its constructor's fields are used) and the asset download scripts are not part of this model.
- Most of js/script.js is not modelled: the game loop, key handling and pause/start glue. Only its constants and the Space-key bomb placement are (`LevelEngine.Level.PlaceBomb`).
- The root script's `initializeGame` is not modelled. Its retry loop for enemy spawns is unbounded, and it calls `ensureEmptyTile` around the spawn. The per-tile operations are modelled instead: `generateMap`, `ensureEmptyTile` and `createEnemy`.
- `Math.random()` is an oracle parameter, and `Date.now()` is a single `now` per frame.
- `setTimeout` in `Bomb.checkChainReactions` becomes the level's `pending` queue, drained one callback at a time by `FireTimeout`. The browser's timer ordering and the 50 ms delay are not modelled.
- JavaScript doubles are modelled as exact reals, so no floating-point rounding is modelled.
  - The enemy's `deltaTime / 16.67` factor is taken exactly.
  - `PlayerEntity.Player.Update` and `EnemyEntity.Enemy.AdvanceMotion` snap under exact arithmetic.
- Tiles are integers 0, 1 and 2. The source never stores another value.
- `LevelEngine.Level.DamageEnemy` assumes a global `updateScore` function defined outside the modelled files, for instance by the page. None of these files defines one: script.js:74 is local to the root script's closure, and js/ui.js:65 and js/game.js:148 are methods. Without it the call at js/game_objects/enemy.js:325 would throw after the enemy's removal and the score increase, ending `Bomb.explode` before the chain reactions and the bomb's return.
- `EnemyEntity.Enemy.TakeDamage` returns whether the enemy died instead of calling `gameLevel.removeEnemy` and the global score itself. `LevelEngine.Level.DamageEnemy` does both, as the source's global call does.
- `EnemyEntity.Enemy.Update` takes the grid, the live blasts and the player's position as arguments. The source reads them from the global `gameLevel`.
- `LevelEngine.Level.constructor` builds the level's player at cell (1, 1) inside `initializeGrid`, as the source does. No other player can be attached.
- `ScriptGame.GameState.ExplodeBomb` sets `exploded` with the bomb's return at the end rather than first. No code between the two reads the flag.
- `ScriptGame.GameState.MoveEnemies` states the per-enemy step through a predicate over the old positions. The enemies' pixel positions appear only through `Aligned`.
- `ScriptGame.GameState.MovePlayer` and `ScriptGame.GameState.EnemyTurns` promise only the invariant. The player's slide is stated by `ScriptEntities.Player.Advance` and the enemies' steps by `ScriptGame.GameState.MoveEnemies`.
- `ScriptGame.GameState.Frame` and `ScriptGame.GameState.Update` do not carry up the outcome of `Collide` or the enemies' steps. The player moves before the two checks and the enemies move after them, so each is stated by the method that does it.
- `LevelEngine.Level.UpdateActors` promises that no enemy loses a life and none is added. The players' and enemies' positions are stated by `PlayerEntity.Player.Update` and `EnemyEntity.Enemy.Update`.
- `LevelEngine.Level.Update` does not restate the grid and score changes of the explosions inside it. Each explosion's effect is stated by `LevelEngine.Bomb.Explode`.

## Findings

| source | as written | input that shows it | evidently intended | confidence | as-written member | corrected member |
|---|---|---|---|---|---|---|
| js/game_objects/enemy.js:255-256 | `moveInDirection` overwrites `this.direction` on every try, even a failed one; the last overwrite before the reverse is by the opposite turn (js/game_objects/enemy.js:254), so the reverse computed from it is the first turn again and the fourth try repeats the second. `EnemyEntity.Enemy.DetermineNextMove` runs this patrol as written | a demon heading right in a corridor that is closed ahead and on both sides, with only the way back open | try the current direction, the turn, the opposite turn and finally the way back | not executed | EnemyEntity.Enemy.PatrolMoveAsWritten, EnemyEntity.PatrolAsWrittenNeverReverses, EnemyEntity.PatrolDeadEnd | EnemyEntity.Enemy.PatrolMove, EnemyEntity.PatrolOrderTriesEveryDirection |
| script.js:218 and script.js:298-305 | `explodeBomb` says the bomb will be removed from `gameState.bombs` after the explosion, but `update` never removes it; the guard of `handleInput` (script.js:139-147) then refuses every later bomb on that cell | on a map where (2, 1) and (3, 1) are empty, place a bomb at (1, 1), step out of its power-1 blast to (3, 1), wait 3500 ms until the markers expire, walk back to (1, 1) and press Space there with a bomb in hand | spent bombs leave the list once their explosion is over, and the cell can be bombed again | not executed | ScriptGame.GameState.Update | ScriptGame.GameState.UpdateRetiringBombs, ScriptGame.GameState.RemoveSpentBombs, ScriptRules.UnspentFrees |
