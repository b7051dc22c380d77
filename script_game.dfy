/** The gameState object of the self-contained root script.js and the
    functions of its closure that change it: tryMovePlayer, placeBomb,
    explodeBomb, ensureEmptyTile, handleInput and the frame update.
    Keyboard state is the `Keys` of the frame, Math.random() the `picks`
    oracle, Date.now() the `now` of the frame, and updateScore's DOM write is
    left out. */
module ScriptGame {
  import opened ScriptMap
  import opened ScriptEntities
  import opened ScriptRules

  /** The keys handleInput reads: ArrowUp or w, ArrowDown or s, ArrowLeft
      or a, ArrowRight or d, and Space or b. */
  datatype Keys = Keys(up: bool, down: bool, left: bool, right: bool, bomb: bool) {
    /** The step handleInput tries: the first key held in the order up,
        down, left, right. */
    function Pressed(): Motion {
      if up then Moving(Up) else if down then Moving(Down) else if left then Moving(Left)
      else if right then Moving(Right) else Idle
    }
  }

  /** The grid cell of each enemy and whether it lives. */
  ghost function Views(es: seq<Enemy>): (r: seq<View>)
    reads es`gridX, es`gridY, es`alive
    ensures |r| == |es|
    ensures forall k :: 0 <= k < |es| ==> r[k] == View(es[k].gridX, es[k].gridY, es[k].alive)
  {
    if es == [] then [] else Views(es[..|es| - 1]) + [View(es[|es| - 1].gridX, es[|es| - 1].gridY, es[|es| - 1].alive)]
  }

  /** Whether each enemy is at rest. */
  ghost function Rests(es: seq<Enemy>): (r: seq<bool>)
    reads es`movingTo
    ensures |r| == |es|
    ensures forall k :: 0 <= k < |es| ==> r[k] == (es[k].movingTo == Idle)
  {
    if es == [] then [] else Rests(es[..|es| - 1]) + [es[|es| - 1].movingTo == Idle]
  }

  /** The exploded flag of each bomb. */
  ghost function Flags(bs: seq<Bomb>): (r: seq<bool>)
    reads bs`exploded
    ensures |r| == |bs|
    ensures forall k :: 0 <= k < |bs| ==> r[k] == bs[k].exploded
  {
    if bs == [] then [] else Flags(bs[..|bs| - 1]) + [bs[|bs| - 1].exploded]
  }

  /** The gameState object, with the closure's score and TILE_SIZE. */
  class GameState {
    var player: Player?
    var bombs: seq<Bomb>
    var explosions: seq<Explosion>
    var enemies: seq<Enemy>
    var gameStarted: bool
    var gameOver: bool
    var gameMap: Map
    var score: int
    const tile: real

    /** The gameState literal and `let score = 0`. */
    constructor (tile: real)
      ensures this.tile == tile && player == null && bombs == [] && explosions == [] && enemies == []
      ensures !gameStarted && !gameOver && gameMap == [] && score == 0
    {
      this.tile := tile;
      player := null;
      bombs, explosions, enemies := [], [], [];
      gameStarted, gameOver := false, false;
      gameMap := [];
      score := 0;
    }

    /** What a running game keeps: a positive tile size, a full map, every
        enemy and bomb listed once, every bomb the player's, and the player
        and each enemy aligned with their grid cells. */
    ghost predicate Valid()
      reads this, player, enemies
    {
      tile > 0.0 && Shaped(gameMap) && Distinct(enemies) && Distinct(bombs) &&
      (forall k :: 0 <= k < |bombs| ==> bombs[k].plantedBy == player) &&
      (player != null ==> player.speed == PLAYER_SPEED && player.Aligned(tile)) &&
      (forall k :: 0 <= k < |enemies| ==> enemies[k].speed == ENEMY_SPEED && enemies[k].Aligned(tile))
    }

    // -------------------------------------------------------------------------
    // Map
    // -------------------------------------------------------------------------

    /** ensureEmptyTile(gridX, gridY). */
    method EnsureEmptyTile(gridX: int, gridY: int)
      requires Shaped(gameMap)
      modifies this`gameMap
      ensures gameMap == Emptied(old(gameMap), gridX, gridY)
    {
      if 0 <= gridX < GRID_SIZE && 0 <= gridY < GRID_SIZE {
        if gameMap[gridY][gridX] != TILE_INDESTRUCTIBLE {
          gameMap := gameMap[gridY := gameMap[gridY][gridX := TILE_EMPTY]];
        }
      }
    }

    // -------------------------------------------------------------------------
    // Input
    // -------------------------------------------------------------------------

    /** tryMovePlayer(dx, dy, direction): latch the neighbouring cell as the
        target when it is on the map, empty and not exploding; otherwise
        leave the player as it is. */
    method TryMovePlayer(dx: int, dy: int, direction: Heading)
      requires player != null && Shaped(gameMap)
      modifies {player}`targetX, {player}`targetY, {player}`movingTo
      ensures var nx, ny := player.gridX + dx, player.gridY + dy;
        if InBounds(nx, ny) && gameMap[ny][nx] == TILE_EMPTY && !Exploding(explosions, nx, ny) then
          player.targetX == Px(nx, tile) && player.targetY == Px(ny, tile) && player.movingTo == Moving(direction)
        else
          unchanged(player)
      ensures (tile > 0.0 && old(player.Aligned(tile)) && old(player.movingTo) == Idle &&
        dx == direction.DX() && dy == direction.DY()) ==> player.Aligned(tile)
    {
      var newGridX, newGridY := player.gridX + dx, player.gridY + dy;
      if newGridX >= 0 && newGridX < GRID_SIZE && newGridY >= 0 && newGridY < GRID_SIZE {
        var targetTileType := gameMap[newGridY][newGridX];
        var isExploding := Exploding(explosions, newGridX, newGridY);
        if targetTileType == TILE_EMPTY && !isExploding {
          player.targetX := Px(newGridX, tile);
          player.targetY := Px(newGridY, tile);
          player.movingTo := Moving(direction);
          if tile > 0.0 && old(player.Aligned(tile)) && old(player.movingTo) == Idle &&
             dx == direction.DX() && dy == direction.DY() {
            Neighbour(player.gridX, player.gridY, direction, tile);
          }
        }
      }
    }

    /** placeBomb(gridX, gridY, power, plantedBy): one new bomb at the end of
        the list, and one bomb fewer in hand. */
    method PlaceBomb(gridX: int, gridY: int, power: int, plantedBy: Player, now: int)
      modifies this`bombs, plantedBy`bombsAvailable
      ensures |bombs| == |old(bombs)| + 1 && bombs[..|old(bombs)|] == old(bombs)
      ensures var b := bombs[|old(bombs)|];
        fresh(b) && b.gridX == gridX && b.gridY == gridY && b.power == power && b.plantedBy == plantedBy &&
        !b.exploded && b.startTime == now && b.timer == BOMB_TIMER
      ensures plantedBy.bombsAvailable == old(plantedBy.bombsAvailable) - 1
    {
      var newBomb := new Bomb(gridX, gridY, power, plantedBy, now, tile);
      bombs := bombs + [newBomb];
      plantedBy.bombsAvailable := plantedBy.bombsAvailable - 1;
    }

    /** handleInput: nothing once the game is over or without a living
        player; a player at rest tries the step of the first movement key
        held; the bomb key plants a bomb on the player's cell when one is in
        hand and no bomb in the list sits on that cell. */
    method HandleInput(keys: Keys, now: int)
      requires Valid()
      modifies this`bombs, {player}`targetX, {player}`targetY, {player}`movingTo, {player}`bombsAvailable
      ensures Valid()
      ensures var active := old(!gameOver && player != null && player.alive);
        var placed := active && keys.bomb && old(player.bombsAvailable) > 0 &&
          !BombExists(old(bombs), player.gridX, player.gridY);
        (placed ==>
          |bombs| == |old(bombs)| + 1 && bombs[..|old(bombs)|] == old(bombs) &&
          var b := bombs[|old(bombs)|];
          fresh(b) && b.gridX == player.gridX && b.gridY == player.gridY && b.power == player.bombPower &&
          !b.exploded && player.bombsAvailable == old(player.bombsAvailable) - 1) &&
        (!placed ==> bombs == old(bombs) && (player != null ==> player.bombsAvailable == old(player.bombsAvailable)))
      ensures player != null && player.movingTo != old(player.movingTo) ==>
        old(!gameOver && player.alive && player.movingTo == Idle) && player.movingTo == keys.Pressed()
    {
      if gameOver || player == null || !player.alive {
        return;
      }
      Steer(keys);
      BombKey(keys, now);
    }

    /** The movement half of handleInput: a player at rest tries the step of
        the first movement key held, and no other change of heading happens. */
    method Steer(keys: Keys)
      requires Valid() && player != null
      modifies {player}`targetX, {player}`targetY, {player}`movingTo
      ensures Valid()
      ensures player.movingTo != old(player.movingTo) ==> old(player.movingTo) == Idle && player.movingTo == keys.Pressed()
    {
      if player.movingTo == Idle {
        if keys.up {
          TryMovePlayer(0, -1, Up);
        } else if keys.down {
          TryMovePlayer(0, 1, Down);
        } else if keys.left {
          TryMovePlayer(-1, 0, Left);
        } else if keys.right {
          TryMovePlayer(1, 0, Right);
        }
      }
    }

    /** The bomb guard of handleInput: with a bomb in hand and no bomb of the
        list on the player's cell, one is planted there; otherwise nothing
        changes. */
    method BombKey(keys: Keys, now: int)
      requires Valid() && player != null
      modifies this`bombs, {player}`bombsAvailable
      ensures Valid()
      ensures var placed := keys.bomb && old(player.bombsAvailable) > 0 && !BombExists(old(bombs), player.gridX, player.gridY);
        (placed ==>
          |bombs| == |old(bombs)| + 1 && bombs[..|old(bombs)|] == old(bombs) &&
          var b := bombs[|old(bombs)|];
          fresh(b) && b.gridX == player.gridX && b.gridY == player.gridY && b.power == player.bombPower &&
          !b.exploded && player.bombsAvailable == old(player.bombsAvailable) - 1) &&
        (!placed ==> bombs == old(bombs) && player.bombsAvailable == old(player.bombsAvailable))
    {
      if keys.bomb && player.bombsAvailable > 0 {
        var bombExists := BombExists(bombs, player.gridX, player.gridY);
        if !bombExists {
          PlaceBomb(player.gridX, player.gridY, player.bombPower, player, now);
          assert forall k :: 0 <= k < |bombs| - 1 ==> bombs[k] == old(bombs)[k];
        }
      }
    }

    // -------------------------------------------------------------------------
    // explodeBomb
    // -------------------------------------------------------------------------

    /** Where explodeBomb's loop over the blast tiles `ts` stands before tile
        `i`, having started from the markers `ex0`, the map `m0`, the
        enemies `v0` and the score `s0`. */
    ghost predicate Blasting(ts: seq<Coord>, v0: seq<View>, ex0: seq<Explosion>, m0: Map, s0: int, now: int, i: int)
      reads this`explosions, this`gameMap, this`score, this`enemies, enemies`gridX, enemies`gridY, enemies`alive
    {
      0 <= i <= |ts| && Shaped(m0) && (forall k :: 0 <= k < |ts| ==> InBounds(ts[k].x, ts[k].y)) &&
      |v0| == |enemies| && Distinct(enemies) &&
      explosions == AddMarkers(ex0, ts[..i], now) && gameMap == Cleared(m0, ts[..i]) &&
      (forall k :: 0 <= k < |enemies| ==>
        enemies[k].gridX == v0[k].gridX && enemies[k].gridY == v0[k].gridY &&
        enemies[k].alive == (v0[k].alive && v0[k].Cell() !in ts[..i])) &&
      score == s0 + 100 * Kills(v0, ts[..i])
    }

    /** explodeBomb(bomb): mark the bomb exploded, put a marker on its own
        tile, then for each tile getExplosionTiles gives: a marker unless the
        tile already has one, the block cleared if destructible, and every
        living enemy on it killed for 100 points; last, the bomb goes back
        to the player who planted it.  The exploded flag is set at the end
        here; nothing in between reads it, so the order does not show. */
    method ExplodeBomb(bomb: Bomb, now: int)
      requires Shaped(gameMap) && Distinct(enemies)
      modifies bomb`exploded, this`explosions, this`gameMap, this`score, enemies`alive
      modifies {bomb.plantedBy}`bombsAvailable
      ensures bomb.exploded && Shaped(gameMap)
      ensures var ts := ExplosionTiles(old(gameMap), bomb.gridX, bomb.gridY, bomb.power);
        explosions == AddMarkers(old(explosions) + [CreateExplosion(bomb.gridX, bomb.gridY, now)], ts, now) &&
        gameMap == Cleared(old(gameMap), ts) &&
        (forall k :: 0 <= k < |enemies| ==>
          enemies[k].alive == (old(enemies[k].alive) && Coord(enemies[k].gridX, enemies[k].gridY) !in ts)) &&
        score == old(score) + 100 * Kills(old(Views(enemies)), ts)
      ensures bomb.plantedBy != null ==> bomb.plantedBy.bombsAvailable == old(bomb.plantedBy.bombsAvailable) + 1
    {
      Blast(bomb.gridX, bomb.gridY, bomb.power, now);
      Retire(bomb);
    }

    /** The markers, blocks and enemies of explodeBomb for a bomb of power
        `power` on (cx, cy): the marker on the bomb's own tile, then for each
        tile getExplosionTiles gives, a marker where missing, the block
        cleared if destructible, and the enemies on it killed for 100 points
        each. */
    method Blast(cx: int, cy: int, power: int, now: int)
      requires Shaped(gameMap) && Distinct(enemies)
      modifies this`explosions, this`gameMap, this`score, enemies`alive
      ensures var ts := ExplosionTiles(old(gameMap), cx, cy, power);
        explosions == AddMarkers(old(explosions) + [CreateExplosion(cx, cy, now)], ts, now) &&
        gameMap == Cleared(old(gameMap), ts) &&
        (forall k :: 0 <= k < |enemies| ==>
          enemies[k].alive == (old(enemies[k].alive) && Coord(enemies[k].gridX, enemies[k].gridY) !in ts)) &&
        score == old(score) + 100 * Kills(old(Views(enemies)), ts)
    {
      ghost var v0 := Views(enemies);
      explosions := explosions + [CreateExplosion(cx, cy, now)];
      var ts := GetExplosionTiles(gameMap, cx, cy, power);
      BlastTiles(ts, v0, now);
    }

    /** explodeBomb's forEach over the blast tiles `ts`, the enemies having
        been `v0` before it. */
    method BlastTiles(ts: seq<Coord>, ghost v0: seq<View>, now: int)
      requires Shaped(gameMap) && Distinct(enemies) && forall k :: 0 <= k < |ts| ==> InBounds(ts[k].x, ts[k].y)
      requires |v0| == |enemies| && forall k :: 0 <= k < |enemies| ==>
        enemies[k].gridX == v0[k].gridX && enemies[k].gridY == v0[k].gridY && enemies[k].alive == v0[k].alive
      modifies this`explosions, this`gameMap, this`score, enemies`alive
      ensures explosions == AddMarkers(old(explosions), ts, now) && gameMap == Cleared(old(gameMap), ts)
      ensures forall k :: 0 <= k < |enemies| ==>
        enemies[k].gridX == v0[k].gridX && enemies[k].gridY == v0[k].gridY &&
        enemies[k].alive == (v0[k].alive && v0[k].Cell() !in ts)
      ensures score == old(score) + 100 * Kills(v0, ts)
    {
      ghost var ex0, m0, s0 := explosions, gameMap, score;
      assert ts[..0] == [];
      for i := 0 to |ts|
        invariant Blasting(ts, v0, ex0, m0, s0, now, i)
      {
        BlastTile(ts, v0, ex0, m0, s0, now, i);
      }
      assert ts[..|ts|] == ts;
    }

    /** The bomb's own part of explodeBomb: it is marked exploded and goes
        back to the player who planted it, if any. */
    method Retire(bomb: Bomb)
      modifies bomb`exploded, {bomb.plantedBy}`bombsAvailable
      ensures bomb.exploded
      ensures bomb.plantedBy != null ==> bomb.plantedBy.bombsAvailable == old(bomb.plantedBy.bombsAvailable) + 1
    {
      bomb.exploded := true;
      if bomb.plantedBy != null {
        bomb.plantedBy.bombsAvailable := bomb.plantedBy.bombsAvailable + 1;
      }
    }

    /** One turn of explodeBomb's forEach over the blast tiles. */
    method BlastTile(ts: seq<Coord>, ghost v0: seq<View>, ghost ex0: seq<Explosion>, ghost m0: Map, ghost s0: int, now: int, i: int)
      requires Blasting(ts, v0, ex0, m0, s0, now, i) && i < |ts|
      modifies this`explosions, this`gameMap, this`score, enemies`alive
      ensures Blasting(ts, v0, ex0, m0, s0, now, i + 1)
    {
      var tile := ts[i];
      assert ts[..i + 1] == ts[..i] + [tile];
      if !Exploding(explosions, tile.x, tile.y) {
        explosions := explosions + [CreateExplosion(tile.x, tile.y, now)];
      }
      if gameMap[tile.y][tile.x] == TILE_DESTRUCTIBLE {
        gameMap := gameMap[tile.y := gameMap[tile.y][tile.x := TILE_EMPTY]];
      }
      ghost var s1 := score;
      HitEnemies(tile, v0, ts[..i]);
      KillsStep(v0, ts[..i], tile);
    }

    /** explodeBomb's forEach over the enemies for one blast tile `t`: every
        living enemy on `t` dies and scores 100 points.  `v0` is what the
        enemies were before the blast, `done` the tiles already handled. */
    method HitEnemies(t: Coord, ghost v0: seq<View>, ghost done: seq<Coord>)
      requires |v0| == |enemies| && Distinct(enemies)
      requires forall k :: 0 <= k < |enemies| ==>
        enemies[k].gridX == v0[k].gridX && enemies[k].gridY == v0[k].gridY &&
        enemies[k].alive == (v0[k].alive && v0[k].Cell() !in done)
      modifies this`score, enemies`alive
      ensures forall k :: 0 <= k < |enemies| ==>
        enemies[k].gridX == v0[k].gridX && enemies[k].gridY == v0[k].gridY &&
        enemies[k].alive == (v0[k].alive && v0[k].Cell() !in done && v0[k].Cell() != t)
      ensures score == old(score) + 100 * Hits(v0, done, t)
    {
      for j := 0 to |enemies|
        invariant forall k :: 0 <= k < |enemies| ==>
          enemies[k].gridX == v0[k].gridX && enemies[k].gridY == v0[k].gridY &&
          enemies[k].alive == (v0[k].alive && v0[k].Cell() !in done && (k < j ==> v0[k].Cell() != t))
        invariant score == old(score) + 100 * Hits(v0[..j], done, t)
      {
        var enemy := enemies[j];
        assert v0[..j + 1][..j] == v0[..j];
        if enemy.alive && enemy.gridX == t.x && enemy.gridY == t.y {
          enemy.alive := false;
          score := score + 100;
        }
      }
      assert v0[..|enemies|] == v0;
    }

    // -------------------------------------------------------------------------
    // update
    // -------------------------------------------------------------------------

    /** update's bomb loop: from the last bomb to the first, each bomb not yet
        exploded whose time is up explodes. */
    method ExplodeDue(now: int)
      requires Shaped(gameMap) && Distinct(enemies) && Distinct(bombs)
      requires forall k :: 0 <= k < |bombs| ==> bombs[k].plantedBy == player
      modifies bombs`exploded, this`explosions, this`gameMap, this`score, enemies`alive, {player}`bombsAvailable
      ensures Shaped(gameMap)
      ensures forall k :: 0 <= k < |bombs| ==> bombs[k].exploded == (old(bombs[k].exploded) || bombs[k].Due(now))
    {
      ghost var f0 := Flags(bombs);
      var i := |bombs| - 1;
      while i >= 0
        invariant -1 <= i < |bombs| && Fired(f0, now, i)
      {
        FireIfDue(f0, now, i);
        i := i - 1;
      }
    }

    /** Where update's bomb loop stands before the bomb at position `i`, the
        flags having been `f0`: the map is full, the enemies distinct, and
        the bombs after `i` have exploded when due. */
    ghost predicate Fired(f0: seq<bool>, now: int, i: int)
      reads this`gameMap, this`enemies, this`bombs, this`player, bombs`exploded
    {
      Shaped(gameMap) && Distinct(enemies) && Distinct(bombs) && |f0| == |bombs| &&
      (forall k :: 0 <= k < |bombs| ==> bombs[k].plantedBy == player) &&
      forall k :: 0 <= k < |bombs| ==> bombs[k].exploded == (f0[k] || (i < k && bombs[k].Due(now)))
    }

    /** One turn of update's bomb loop. */
    method FireIfDue(ghost f0: seq<bool>, now: int, i: int)
      requires 0 <= i < |bombs| && Fired(f0, now, i)
      modifies bombs`exploded, this`explosions, this`gameMap, this`score, enemies`alive, {player}`bombsAvailable
      ensures Fired(f0, now, i - 1)
    {
      var bomb := bombs[i];
      if !bomb.exploded && now - bomb.startTime >= bomb.timer {
        ExplodeBomb(bomb, now);
        assert forall k :: 0 <= k < |bombs| && k != i ==> bombs[k] != bomb;
      }
    }

    /** update's explosion loop: from the last marker to the first, each
        expired marker is spliced out. */
    method ExpireExplosions(now: int)
      modifies this`explosions
      ensures explosions == Live(old(explosions), now)
    {
      ghost var e0 := explosions;
      var i := |explosions| - 1;
      while i >= 0
        invariant -1 <= i < |e0| && explosions == e0[..i + 1] + Live(e0[i + 1..], now)
      {
        var explosion := explosions[i];
        LiveStep(e0, now, i);
        if now - explosion.startTime >= explosion.duration {
          explosions := explosions[..i] + explosions[i + 1..];
          assert explosions == e0[..i] + Live(e0[i..], now);
        } else {
          assert e0[..i + 1] == e0[..i] + [e0[i]];
        }
        i := i - 1;
      }
      assert e0[0..] == e0;
    }

    /** update's player-explosion check: a living player on an exploding
        tile dies and the game is over. */
    method CheckPlayerExplosion()
      modifies {player}`alive, this`gameOver
      ensures var hit := old(player != null && player.alive && Exploding(explosions, player.gridX, player.gridY));
        gameOver == (old(gameOver) || hit) && (player != null ==> player.alive == (old(player.alive) && !hit))
    {
      if player != null && player.alive && Exploding(explosions, player.gridX, player.gridY) {
        player.alive := false;
        gameOver := true;
      }
    }

    /** Some living enemy among the first `j` stands on the player's cell. */
    ghost predicate Touched(j: int)
      requires player != null
      reads this`player, this`enemies, player`gridX, player`gridY, enemies`alive, enemies`gridX, enemies`gridY
    {
      exists k :: 0 <= k < j && k < |enemies| && enemies[k].alive && enemies[k].gridX == player.gridX && enemies[k].gridY == player.gridY
    }

    /** update's player-enemy check: a living player sharing its cell with a
        living enemy dies and the game is over. */
    method CheckPlayerEnemy()
      modifies {player}`alive, this`gameOver
      ensures var hit := old(player != null && player.alive && Touched(|enemies|));
        gameOver == (old(gameOver) || hit) && (player != null ==> player.alive == (old(player.alive) && !hit))
    {
      if player != null && player.alive {
        for j := 0 to |enemies|
          invariant player.alive == !Touched(j)
          invariant gameOver == (old(gameOver) || !player.alive)
        {
          var enemy := enemies[j];
          if enemy.alive && enemy.gridX == player.gridX && enemy.gridY == player.gridY {
            player.alive := false;
            gameOver := true;
          }
        }
      }
    }

    /** update's enemy loop: every enemy takes its turn, with the random
        direction `picks(j)` for the enemy at position j. */
    method MoveEnemies(picks: nat -> nat)
      requires Shaped(gameMap) && tile > 0.0 && Distinct(enemies)
      requires forall k :: 0 <= k < |enemies| ==> enemies[k].speed == ENEMY_SPEED && enemies[k].Aligned(tile)
      modifies enemies`x, enemies`y, enemies`gridX, enemies`gridY, enemies`movingTo, enemies`targetX, enemies`targetY
      ensures Wandered(old(Views(enemies)), old(Rests(enemies)), picks, |enemies|)
    {
      ghost var v0, r0 := Views(enemies), Rests(enemies);
      for j := 0 to |enemies|
        invariant Wandered(v0, r0, picks, j)
      {
        StepEnemy(v0, r0, picks, j);
      }
    }

    /** Where update's enemy loop stands before enemy `j`, the enemies having
        been `v0` (cells and life) and `r0` (at rest or not): all stay
        aligned, the ones from `j` on are as they were, and each one before
        `j` took the step its pick allowed. */
    ghost predicate Wandered(v0: seq<View>, r0: seq<bool>, picks: nat -> nat, j: int)
      reads this`enemies, this`gameMap, enemies
    {
      0 <= j <= |enemies| && |v0| == |r0| == |enemies| && Shaped(gameMap) && tile > 0.0 && Distinct(enemies) &&
      (forall k :: 0 <= k < |enemies| ==> enemies[k].speed == ENEMY_SPEED && enemies[k].Aligned(tile)) &&
      (forall k :: 0 <= k < |enemies| ==> enemies[k].alive == v0[k].alive) &&
      (forall k :: j <= k < |enemies| ==>
        enemies[k].gridX == v0[k].gridX && enemies[k].gridY == v0[k].gridY && (enemies[k].movingTo == Idle) == r0[k]) &&
      forall k :: 0 <= k < j ==>
        var h := DIRECTIONS[picks(k) % 4];
        var gx, gy := v0[k].gridX + h.DX(), v0[k].gridY + h.DY();
        if v0[k].alive && r0[k] && InBounds(gx, gy) && gameMap[gy][gx] == TILE_EMPTY then
          enemies[k].gridX == gx && enemies[k].gridY == gy
        else
          enemies[k].gridX == v0[k].gridX && enemies[k].gridY == v0[k].gridY
    }

    /** One turn of update's enemy loop: enemy `j` takes its step. */
    method StepEnemy(ghost v0: seq<View>, ghost r0: seq<bool>, picks: nat -> nat, j: int)
      requires Wandered(v0, r0, picks, j) && j < |enemies|
      modifies {enemies[j]}`x, {enemies[j]}`y, {enemies[j]}`gridX, {enemies[j]}`gridY, {enemies[j]}`movingTo, {enemies[j]}`targetX, {enemies[j]}`targetY
      ensures Wandered(v0, r0, picks, j + 1)
    {
      var enemy := enemies[j];
      enemy.Step(gameMap, picks(j), tile);
      assert forall k :: 0 <= k < |enemies| && k != j ==> enemies[k] != enemy;
    }

    /** One frame of update, as written: nothing before the game starts or
        once it is over; otherwise input, the player's motion, the bomb
        timers, the explosion lifetimes, the two deadly collisions and the
        enemies' turns.  No bomb ever leaves the list. */
    method Update(now: int, keys: Keys, picks: nat -> nat)
      requires Valid()
      modifies this`bombs, this`explosions, this`gameMap, this`score, this`gameOver
      modifies {player}`x, {player}`y, {player}`gridX, {player}`gridY, {player}`isMoving, {player}`targetX, {player}`targetY
      modifies {player}`movingTo, {player}`bombsAvailable, {player}`alive
      modifies bombs`exploded
      modifies enemies`x, enemies`y, enemies`gridX, enemies`gridY, enemies`movingTo, enemies`targetX, enemies`targetY, enemies`alive
      ensures Valid()
      ensures |old(bombs)| <= |bombs| && bombs[..|old(bombs)|] == old(bombs)
      ensures forall x, y :: BombExists(old(bombs), x, y) ==> BombExists(bombs, x, y)
      ensures old(gameOver) ==> gameOver
      ensures !old(gameStarted) || old(gameOver) ==> unchanged(this) && (player != null ==> unchanged(player)) && unchanged(enemies)
      // within a running game every bomb already planted explodes once due, and no expired marker is left
      ensures old(gameStarted) && !old(gameOver) ==>
        (forall k :: 0 <= k < |old(bombs)| ==> bombs[k].exploded == (old(bombs[k].exploded) || bombs[k].Due(now))) &&
        (forall k :: 0 <= k < |explosions| ==> !explosions[k].Expired(now))
    {
      if !gameStarted || gameOver {
        return;
      }
      HandleInput(keys, now);
      Frame(now, picks);
    }

    /** update with the removal explodeBomb announces: after the frame,
        every bomb whose fuse and explosion have run out leaves the list, so
        its cell takes a new bomb again. */
    method UpdateRetiringBombs(now: int, keys: Keys, picks: nat -> nat)
      requires Valid()
      modifies this`bombs, this`explosions, this`gameMap, this`score, this`gameOver
      modifies {player}`x, {player}`y, {player}`gridX, {player}`gridY, {player}`isMoving, {player}`targetX, {player}`targetY
      modifies {player}`movingTo, {player}`bombsAvailable, {player}`alive
      modifies bombs`exploded
      modifies enemies`x, enemies`y, enemies`gridX, enemies`gridY, enemies`movingTo, enemies`targetX, enemies`targetY, enemies`alive
      ensures Valid() && (old(gameOver) ==> gameOver)
      ensures forall k :: 0 <= k < |bombs| ==> !bombs[k].Spent(now)
      ensures forall b :: b in old(bombs) && !b.Spent(now) ==> b in bombs
    {
      Update(now, keys, picks);
      ghost var b1 := bombs;
      assert forall b :: b in old(bombs) ==> b in b1 by {
        forall b | b in old(bombs) ensures b in b1 {
          var k :| 0 <= k < |old(bombs)| && old(bombs)[k] == b;
          assert b1[..|old(bombs)|][k] == b;
        }
      }
      RetireBombs(now);
    }

    /** The corrected clean-up within a running game: it keeps the game
        state valid, leaves no spent bomb and keeps every unspent one. */
    method RetireBombs(now: int)
      requires Valid()
      modifies this`bombs
      ensures Valid()
      ensures forall k :: 0 <= k < |bombs| ==> !bombs[k].Spent(now)
      ensures forall b :: b in old(bombs) && !b.Spent(now) ==> b in bombs
    {
      RemoveSpentBombs(now);
      UnspentExactly(old(bombs), now);
      assert forall k :: 0 <= k < |bombs| ==> bombs[k] in old(bombs);
    }

    /** The corrected bomb clean-up: a backward splice loop over the bombs
        that removes the spent ones. */
    method RemoveSpentBombs(now: int)
      modifies this`bombs
      ensures bombs == Unspent(old(bombs), now)
    {
      ghost var b0 := bombs;
      var i := |bombs| - 1;
      while i >= 0
        invariant -1 <= i < |b0| && bombs == b0[..i + 1] + Unspent(b0[i + 1..], now)
      {
        DropIfSpent(b0, now, i);
        i := i - 1;
      }
      assert b0[0..] == b0;
    }

    /** One turn of the clean-up loop, at position `i` of the list `b0` it
        started from. */
    method DropIfSpent(ghost b0: seq<Bomb>, now: int, i: int)
      requires 0 <= i < |b0| && bombs == b0[..i + 1] + Unspent(b0[i + 1..], now)
      modifies this`bombs
      ensures bombs == b0[..i] + Unspent(b0[i..], now)
    {
      var bomb := bombs[i];
      UnspentStep(b0, now, i);
      if bomb.exploded && now - bomb.startTime >= bomb.timer + EXPLOSION_DURATION {
        bombs := bombs[..i] + bombs[i + 1..];
      } else {
        assert b0[..i + 1] == b0[..i] + [b0[i]];
      }
    }

    /** The part of update after handleInput. */
    method Frame(now: int, picks: nat -> nat)
      requires Valid()
      modifies this`explosions, this`gameMap, this`score, this`gameOver
      modifies {player}`x, {player}`y, {player}`gridX, {player}`gridY, {player}`isMoving, {player}`movingTo, {player}`bombsAvailable, {player}`alive
      modifies bombs`exploded
      modifies enemies`x, enemies`y, enemies`gridX, enemies`gridY, enemies`movingTo, enemies`targetX, enemies`targetY, enemies`alive
      ensures Valid() && (old(gameOver) ==> gameOver)
      ensures forall k :: 0 <= k < |bombs| ==> bombs[k].exploded == (old(bombs[k].exploded) || bombs[k].Due(now))
      ensures forall k :: 0 <= k < |explosions| ==> !explosions[k].Expired(now)
    {
      MovePlayer();
      BombsAndBlasts(now);
      Collide();
      EnemyTurns(picks);
    }

    /** update's player motion: a living player on its way slides on. */
    method MovePlayer()
      requires Valid()
      modifies {player}`x, {player}`y, {player}`gridX, {player}`gridY, {player}`isMoving, {player}`movingTo
      ensures Valid()
    {
      var p := player;
      if p != null && p.alive && p.movingTo.Moving? {
        p.Advance(tile);
      }
    }

    /** update's bomb timers and explosion lifetimes. */
    method BombsAndBlasts(now: int)
      requires Valid()
      modifies this`explosions, this`gameMap, this`score, {player}`bombsAvailable, bombs`exploded, enemies`alive
      ensures Valid()
      ensures forall k :: 0 <= k < |bombs| ==> bombs[k].exploded == (old(bombs[k].exploded) || bombs[k].Due(now))
      ensures forall k :: 0 <= k < |explosions| ==> !explosions[k].Expired(now)
    {
      ExplodeDue(now);
      ghost var e1 := explosions;
      ExpireExplosions(now);
      forall k | 0 <= k < |explosions|
        ensures !explosions[k].Expired(now)
      {
        LiveExactly(e1, now, explosions[k]);
      }
    }

    /** update's two deadly collisions: the player against the explosion
        markers, then against the enemies. */
    method Collide()
      requires Valid()
      modifies this`gameOver, {player}`alive
      ensures Valid()
      ensures var hit := old(player != null && player.alive &&
          (Exploding(explosions, player.gridX, player.gridY) || Touched(|enemies|)));
        gameOver == (old(gameOver) || hit) && (player != null ==> player.alive == (old(player.alive) && !hit))
    {
      CheckPlayerExplosion();
      CheckPlayerEnemy();
    }

    /** update's enemy loop, within a running game. */
    method EnemyTurns(picks: nat -> nat)
      requires Valid()
      modifies enemies`x, enemies`y, enemies`gridX, enemies`gridY, enemies`movingTo, enemies`targetX, enemies`targetY
      ensures Valid()
    {
      MoveEnemies(picks);
    }
  }
}
