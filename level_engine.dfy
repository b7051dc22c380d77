/** The bombs and the level of the class-based engine
    (js/game_objects/bomb.js, js/game_objects/level.js).  They call each
    other, through the global `gameLevel` in the source, so they share one
    module; here every Bomb method that reads `gameLevel` takes the level as
    a parameter.  The global `score` of js/script.js is the level's `score`
    field.

    Bomb.checkChainReactions hands each bomb it reaches to setTimeout(…, 50).
    The model queues it in the level's `pending` list, and
    Level.FireTimeout runs the oldest of them. */
module LevelEngine {
  import opened Grid
  import opened BombBlast
  import opened LevelSpec
  import opened PlayerEntity
  import opened EnemyEntity

  /** A bomb's fuse, in milliseconds. */
  const FUSE_MS: real := 3000.0
  /** How long an explosion stays visible (and deadly to enemies' plans). */
  const EXPLOSION_MS: real := 500.0
  /** What one destroyed enemy adds to the score. */
  const KILL_SCORE: int := 100

  predicate Distinct<T(==)>(s: seq<T>) {
    forall i, j :: 0 <= i < j < |s| ==> s[i] != s[j]
  }

  /** Every bomb of `bs` belongs to `p` or to nobody. */
  ghost predicate Owned(bs: seq<Bomb>, p: Player) {
    forall k :: 0 <= k < |bs| ==> bs[k].owner == null || bs[k].owner == p
  }

  /** Taking one bomb out of a list keeps every remaining one owned. */
  lemma OwnedSplice(bs: seq<Bomb>, i: int, p: Player)
    requires Owned(bs, p) && 0 <= i < |bs|
    ensures Owned(bs[..i] + bs[i + 1..], p)
  {
    var r := bs[..i] + bs[i + 1..];
    assert forall k :: 0 <= k < |r| ==> r[k] == bs[if k < i then k else k + 1];
  }

  /** Array.prototype.indexOf: the first position of `v`, or -1. */
  function IndexOf<T(==)>(s: seq<T>, v: T): (r: int)
    ensures -1 <= r < |s|
    ensures r >= 0 ==> s[r] == v && v !in s[..r]
    ensures r < 0 ==> v !in s
  {
    if s == [] then -1
    else if s[0] == v then 0
    else
      var k := IndexOf(s[1..], v);
      if k < 0 then -1 else k + 1
  }

  /** In a list without repeats, indexOf finds each element at its position. */
  lemma {:induction false} IndexOfDistinct<T>(s: seq<T>, i: int)
    requires Distinct(s) && 0 <= i < |s|
    ensures IndexOf(s, s[i]) == i
  {
    if i > 0 {
      assert s[1..][i - 1] == s[i];
      IndexOfDistinct(s[1..], i - 1);
    }
  }

  /** The enemies of `es` that have lives left, in order. */
  function Alive(es: seq<Enemy>): (r: seq<Enemy>)
    reads es`lives
    ensures |r| <= |es|
  {
    if es == [] then []
    else (if es[0].lives > 0 then [es[0]] else []) + Alive(es[1..])
  }

  /** The bombs of `bs` whose explosion has not finished, in order. */
  function Unfinished(bs: seq<Bomb>): (r: seq<Bomb>)
    reads bs`finished
    ensures |r| <= |bs|
  {
    if bs == [] then []
    else (if bs[0].finished then [] else [bs[0]]) + Unfinished(bs[1..])
  }

  /** gameLevel.bombs.filter(b => !b.exploded).length */
  function ActiveBombs(bs: seq<Bomb>): (r: nat)
    reads bs`exploded
    ensures r <= |bs|
    ensures r == 0 <==> forall k :: 0 <= k < |bs| ==> bs[k].exploded
  {
    if bs == [] then 0
    else (if bs[0].exploded then 0 else 1) + ActiveBombs(bs[1..])
  }

  /** The bombs, other than `self`, that have not exploded and stand on one
      of `tiles`, in the order of `bs`. */
  function Triggered(bs: seq<Bomb>, self: Bomb, tiles: seq<Cell>): (r: seq<Bomb>)
    reads bs`exploded
    ensures |r| <= |bs|
  {
    if bs == [] then []
    else
      var b := bs[|bs| - 1];
      Triggered(bs[..|bs| - 1], self, tiles) + (if b != self && !b.exploded && b.Centre() in tiles then [b] else [])
  }

  lemma TriggeredStep(bs: seq<Bomb>, self: Bomb, tiles: seq<Cell>, k: int)
    requires 0 <= k < |bs|
    ensures var hit := bs[k] != self && !bs[k].exploded && bs[k].Centre() in tiles;
      (hit ==> Triggered(bs[..k + 1], self, tiles) == Triggered(bs[..k], self, tiles) + [bs[k]]) &&
      (!hit ==> Triggered(bs[..k + 1], self, tiles) == Triggered(bs[..k], self, tiles))
  {
    assert bs[..k + 1][..k] == bs[..k];
    assert Triggered(bs[..k], self, tiles) + [] == Triggered(bs[..k], self, tiles);
  }

  /** Triggered does not look at the `exploded` flag of `self`. */
  twostate lemma TriggeredSelf(new bs: seq<Bomb>, new self: Bomb, tiles: seq<Cell>)
    requires old(allocated(bs) && allocated(self))
    requires forall k :: 0 <= k < |bs| && bs[k] != self ==> bs[k].exploded == old(bs[k].exploded)
    ensures Triggered(bs, self, tiles) == old(Triggered(bs, self, tiles))
  {
    var i := 0;
    while i < |bs|
      invariant i <= |bs| && Triggered(bs[..i], self, tiles) == old(Triggered(bs[..i], self, tiles))
    {
      assert bs[..i + 1][..i] == bs[..i];
      i := i + 1;
    }
    assert bs[..i] == bs;
  }

  /** A chain reaction only reaches bombs of the list. */
  lemma {:induction false} TriggeredFrom(bs: seq<Bomb>, self: Bomb, tiles: seq<Cell>)
    ensures forall k :: 0 <= k < |Triggered(bs, self, tiles)| ==> Triggered(bs, self, tiles)[k] in bs
  {
    var r := Triggered(bs, self, tiles);
    forall k | 0 <= k < |r|
      ensures r[k] in bs
    {
      TriggeredExactly(bs, self, tiles, r[k]);
    }
  }

  lemma AliveStep(es: seq<Enemy>, i: int)
    requires 0 <= i < |es|
    ensures Alive(es[i..]) == (if es[i].lives > 0 then [es[i]] else []) + Alive(es[i + 1..])
  {
    assert es[i..][1..] == es[i + 1..];
  }

  lemma Associative<T>(a: seq<T>, b: seq<T>, c: seq<T>)
    ensures (a + b) + c == a + (b + c)
  {
  }

  /** Taking element `i` out of `s[..i + 1] + rest`, or keeping it. */
  lemma Splice<T>(s: seq<T>, i: int, rest: seq<T>, keep: bool)
    requires 0 <= i < |s|
    ensures var before := s[..i + 1] + rest;
      (if keep then before else before[..i] + before[i + 1..]) == s[..i] + ((if keep then [s[i]] else []) + rest)
  {
    var before := s[..i + 1] + rest;
    if keep {
      assert s[..i + 1] == s[..i] + [s[i]];
    } else {
      assert before[..i] == s[..i] && before[i + 1..] == rest;
    }
  }

  /** Alive depends on nothing but the enemies' lives. */
  twostate lemma AliveFrame(es: seq<Enemy>)
    requires forall k :: 0 <= k < |es| ==> es[k].lives == old(es[k].lives)
    ensures Alive(es) == old(Alive(es))
  {
    if es != [] {
      AliveFrame(es[1..]);
    }
  }

  /** One turn of checkDamage's enemy loop as it shows in the enemies'
      states: the enemy at `i` is struck, every other enemy is untouched. */
  twostate lemma StatesStep(new es: seq<Enemy>, new before: seq<EnemyState>, new tiles: seq<Cell>, i: int)
    requires old(allocated(es))
    requires 0 <= i < |es| == |before| && Distinct(es)
    requires forall k :: 0 <= k < |es| && es[k] != es[i] ==> unchanged(es[k])
    requires forall k :: 0 <= k < |es| ==>
      old(es[k].State()) == if i < k then Strike(before[k], tiles) else before[k]
    requires es[i].State() == Strike(old(es[i].State()), tiles)
    ensures forall k :: 0 <= k < |es| ==>
      es[k].State() == if i - 1 < k then Strike(before[k], tiles) else before[k]
  {
  }

  /** Alive keeps exactly the enemies with lives left. */
  lemma {:induction false} AliveExactly(es: seq<Enemy>, e: Enemy)
    ensures e in Alive(es) <==> e in es && e.lives > 0
  {
    if es != [] {
      AliveExactly(es[1..], e);
      assert e in es <==> e == es[0] || e in es[1..];
    }
  }

  /** Unfinished keeps exactly the bombs whose explosion has not finished. */
  lemma {:induction false} UnfinishedExactly(bs: seq<Bomb>, b: Bomb)
    ensures b in Unfinished(bs) <==> b in bs && !b.finished
  {
    if bs != [] {
      UnfinishedExactly(bs[1..], b);
      assert b in bs <==> b == bs[0] || b in bs[1..];
    }
  }

  /** A list without repeats keeps none once the finished bombs are gone. */
  lemma {:induction false} UnfinishedDistinct(bs: seq<Bomb>)
    requires Distinct(bs)
    ensures Distinct(Unfinished(bs))
  {
    if bs != [] {
      UnfinishedDistinct(bs[1..]);
      UnfinishedExactly(bs[1..], bs[0]);
      var r := Unfinished(bs[1..]);
      forall i, j | 0 <= i < j < |Unfinished(bs)|
        ensures Unfinished(bs)[i] != Unfinished(bs)[j]
      {
        if !bs[0].finished && i == 0 {
          assert Unfinished(bs)[j] == r[j - 1];
        }
      }
    }
  }

  lemma UnfinishedStep(bs: seq<Bomb>, i: int)
    requires 0 <= i < |bs|
    ensures Unfinished(bs[i..]) == (if bs[i].finished then [] else [bs[i]]) + Unfinished(bs[i + 1..])
  {
    assert bs[i..][1..] == bs[i + 1..];
  }

  /** A chain reaction reaches exactly the other unexploded bombs on the blast. */
  lemma {:induction false} TriggeredExactly(bs: seq<Bomb>, self: Bomb, tiles: seq<Cell>, b: Bomb)
    ensures b in Triggered(bs, self, tiles) <==> b in bs && b != self && !b.exploded && b.Centre() in tiles
  {
    if bs != [] {
      var pre := bs[..|bs| - 1];
      TriggeredExactly(pre, self, tiles, b);
      assert bs == pre + [bs[|bs| - 1]];
      assert b in bs <==> b in pre || b == bs[|bs| - 1];
    }
  }

  /** The fuse of bomb `b`, which had `timer0` left and was `exploded0`,
      has burnt by `deltaTime` when `burnt`, and is as it was otherwise. */
  ghost predicate Fuse(b: Bomb, timer0: real, exploded0: bool, deltaTime: real, burnt: bool)
    reads b`timer, b`exploded
  {
    b.timer == (if burnt && !exploded0 then timer0 - deltaTime else timer0) &&
    (b.exploded <==> exploded0 || (burnt && b.timer <= 0.0))
  }

  /** The fuses of the bombs after position `i` of `B` have burnt by
      `deltaTime`, the others are as they were (timers `T0`, flags `X0`). */
  ghost predicate Burnt(B: seq<Bomb>, T0: seq<real>, X0: seq<bool>, deltaTime: real, i: int)
    reads B`timer, B`exploded
  {
    |B| == |T0| == |X0| &&
    forall k :: 0 <= k < |B| ==> Fuse(B[k], T0[k], X0[k], deltaTime, i < k)
  }

  /** The bombs' fuse timers. */
  ghost function Timers(bs: seq<Bomb>): (r: seq<real>)
    reads bs`timer
    ensures |r| == |bs| && forall k :: 0 <= k < |bs| ==> r[k] == bs[k].timer
  {
    if bs == [] then [] else Timers(bs[..|bs| - 1]) + [bs[|bs| - 1].timer]
  }

  /** The bombs' `exploded` flags. */
  ghost function Flags(bs: seq<Bomb>): (r: seq<bool>)
    reads bs`exploded
    ensures |r| == |bs| && forall k :: 0 <= k < |bs| ==> r[k] == bs[k].exploded
  {
    if bs == [] then [] else Flags(bs[..|bs| - 1]) + [bs[|bs| - 1].exploded]
  }

  /** What Enemy.isTileSafe sees of every bomb of the level. */
  function Views(bs: seq<Bomb>): (r: seq<BombView>)
    reads bs`exploded, bs`finished, bs`explosionTiles
    ensures |r| == |bs|
    ensures forall k :: 0 <= k < |bs| ==>
      r[k] == BombView(bs[k].exploded, bs[k].finished, bs[k].explosionTiles)
  {
    if bs == [] then []
    else Views(bs[..|bs| - 1]) + [BombView(bs[|bs| - 1].exploded, bs[|bs| - 1].finished, bs[|bs| - 1].explosionTiles)]
  }

  /** The position and health of each enemy of `es`. */
  function States(es: seq<Enemy>): (r: seq<EnemyState>)
    reads es`x, es`y, es`lives, es`isInvincible, es`invincibilityTimer
    ensures |r| == |es|
    ensures forall k :: 0 <= k < |es| ==> r[k] == es[k].State()
  {
    if es == [] then []
    else States(es[..|es| - 1]) + [es[|es| - 1].State()]
  }

  /** An enemy in state `s` after a blast over `tiles`: hit once if it
      stands on one of them, untouched otherwise. */
  function Strike(s: EnemyState, tiles: seq<Cell>): EnemyState {
    if CellOf(s) in tiles then AfterHit(s) else s
  }

  /** What a bomb's checkDamage starts from: the player, its cell and
      health, the enemies and their states, and the score. */
  datatype Before = Before(player: Player, playerCell: Cell, health: Health,
                           enemies: seq<Enemy>, states: seq<EnemyState>, score: int)

  // ===========================================================================
  // Bomb

  class Bomb {
    /** Pixel corner of the cell the bomb was dropped on. */
    const x: real
    const y: real
    const power: int
    const owner: Player?
    var timer: real
    var exploded: bool
    /** The blast cells; the source stores their pixel corners. */
    var explosionTiles: seq<Cell>
    const explosionDuration: real
    var explosionTimer: real
    /** Undefined (falsy) in the source until the explosion has been shown. */
    var finished: bool

    constructor (x0: real, y0: real, power0: int, owner0: Player?)
      ensures x == x0 && y == y0 && power == power0 && owner == owner0
      ensures timer == FUSE_MS && !exploded && explosionTiles == []
      ensures explosionDuration == EXPLOSION_MS && explosionTimer == 0.0 && !finished
    {
      x, y, power, owner := x0, y0, power0, owner0;
      timer := FUSE_MS;
      exploded := false;
      explosionTiles := [];
      explosionDuration := EXPLOSION_MS;
      explosionTimer := 0.0;
      finished := false;
    }

    /** The bomb's cell, Math.round(x / GRID_SIZE), Math.round(y / GRID_SIZE). */
    function Centre(): Cell {
      Cell(CellIndex(x), CellIndex(y))
    }

    /** Bomb.update: burn the fuse and explode once it is spent; after the
        explosion, count its display time and mark the bomb finished after
        explosionDuration. */
    method Update(deltaTime: real, level: Level)
      requires level.Sound() && (owner == null || owner == level.player)
      modifies this`timer, this`exploded, this`explosionTimer, this`explosionTiles, this`finished
      modifies level`grid, level`powerups, level`enemies, level`score, level`pending, level.enemies`lives, level.enemies`isInvincible, level.enemies`invincibilityTimer
      modifies level.player`lives, level.player`isInvincible, level.player`invincibilityTimer, level.player`bombCount
      ensures level.Sound()
      ensures !old(exploded) ==>
        timer == old(timer) - deltaTime && (exploded <==> timer <= 0.0) && finished == old(finished)
      ensures !old(exploded) && exploded ==>
        explosionTimer == 0.0 &&
        Exploded(level, old(level.grid), old(level.powerups), old(level.Snapshot()), old(level.pending)) &&
        level.player.bombCount == old(level.player.bombCount) + (if owner != null then 1 else 0)
      ensures !exploded ==>
        unchanged(level) && unchanged(level.player) && unchanged(old(level.enemies))
      ensures old(exploded) ==>
        exploded && timer == old(timer) && explosionTimer == old(explosionTimer) + deltaTime &&
        finished == (old(finished) || explosionTimer >= explosionDuration) &&
        unchanged(level) && unchanged(level.player) && unchanged(old(level.enemies))
    {
      if !exploded {
        Burn(deltaTime, level);
      } else {
        Show(deltaTime);
      }
    }

    /** The first branch of update: the fuse burns by `deltaTime` and the
        bomb explodes when it is spent. */
    method Burn(deltaTime: real, level: Level)
      requires level.Sound() && (owner == null || owner == level.player) && !exploded
      modifies this`timer, this`exploded, this`explosionTimer, this`explosionTiles
      modifies level`grid, level`powerups, level`enemies, level`score, level`pending, level.enemies`lives, level.enemies`isInvincible, level.enemies`invincibilityTimer
      modifies level.player`lives, level.player`isInvincible, level.player`invincibilityTimer, level.player`bombCount
      ensures level.Sound()
      ensures timer == old(timer) - deltaTime && (exploded <==> timer <= 0.0)
      ensures exploded ==>
        explosionTimer == 0.0 &&
        Exploded(level, old(level.grid), old(level.powerups), old(level.Snapshot()), old(level.pending)) &&
        level.player.bombCount == old(level.player.bombCount) + (if owner != null then 1 else 0)
      ensures !exploded ==>
        unchanged(level) && unchanged(level.player) && unchanged(old(level.enemies))
    {
      ghost var b := level.Snapshot();
      timer := timer - deltaTime;
      assert level.Snapshot() == b;
      if timer <= 0.0 {
        Explode(level);
      }
    }

    /** The second branch of update: the explosion is shown for
        explosionDuration, then the bomb is finished. */
    method Show(deltaTime: real)
      requires exploded
      modifies this`explosionTimer, this`finished
      ensures explosionTimer == old(explosionTimer) + deltaTime
      ensures finished == (old(finished) || explosionTimer >= explosionDuration)
    {
      explosionTimer := explosionTimer + deltaTime;
      if explosionTimer >= explosionDuration {
        finished := true;
      }
    }

    /** Bomb.explode: a bomb explodes once.  The first call marks it
        exploded, restarts the display timer, lays out the blast (destroying
        blocks), damages what stands in it, schedules the bombs it reaches and
        gives the bomb back to its owner; any later call changes nothing. */
    method Explode(level: Level)
      requires level.Sound() && (owner == null || owner == level.player)
      modifies this`exploded, this`explosionTimer, this`explosionTiles
      modifies level`grid, level`powerups, level`enemies, level`score, level`pending, level.enemies`lives, level.enemies`isInvincible, level.enemies`invincibilityTimer
      modifies level.player`lives, level.player`isInvincible, level.player`invincibilityTimer, level.player`bombCount
      ensures level.Sound()
      ensures old(exploded) ==>
        unchanged(this) && unchanged(level) && unchanged(level.player) && unchanged(old(level.enemies))
      ensures !old(exploded) ==>
        exploded && explosionTimer == 0.0 &&
        Exploded(level, old(level.grid), old(level.powerups), old(level.Snapshot()), old(level.pending)) &&
        level.player.bombCount == old(level.player.bombCount) + (if owner != null then 1 else 0)
    {
      if exploded {
        return;
      }
      ghost var b := level.Snapshot();
      Ignite(level, b, level.grid, level.powerups, level.pending);
    }

    /** explode for a bomb not yet exploded: detonate, mark the bomb
        exploded and restart its display timer.  explode sets the two fields
        first; nothing in between reads them except the chain-reaction scan,
        which skips the bomb itself, so the order does not show. */
    method Ignite(level: Level, ghost b: Before, ghost g0: TileGrid, ghost p0: seq<Powerup>, ghost q0: seq<Bomb>)
      requires level.Sound() && (owner == null || owner == level.player)
      requires level.Snapshot() == b && level.grid == g0 && level.powerups == p0 && level.pending == q0
      modifies this`exploded, this`explosionTimer, this`explosionTiles
      modifies level`grid, level`powerups, level`enemies, level`score, level`pending, level.enemies`lives, level.enemies`isInvincible, level.enemies`invincibilityTimer
      modifies level.player`lives, level.player`isInvincible, level.player`invincibilityTimer, level.player`bombCount
      ensures level.Sound() && exploded && explosionTimer == 0.0 && Exploded(level, g0, p0, b, q0)
      ensures level.player.bombCount == old(level.player.bombCount) + (if owner != null then 1 else 0)
    {
      Detonate(level, b, g0, p0, q0);
      Mark(level, b, g0, p0, q0);
    }

    /** The two flag writes of explode. */
    method Mark(level: Level, ghost b: Before, ghost g0: TileGrid, ghost p0: seq<Powerup>, ghost q0: seq<Bomb>)
      requires level.Sound() && Exploded(level, g0, p0, b, q0)
      modifies this`exploded, this`explosionTimer
      ensures level.Sound() && exploded && explosionTimer == 0.0 && Exploded(level, g0, p0, b, q0)
    {
      label Blast:
      exploded := true;
      explosionTimer := 0.0;
      Marked@Blast(level, g0, p0, b, q0);
    }

    /** Setting the bomb's own flags keeps what its explosion did. */
    twostate lemma Marked(level: Level, new g0: TileGrid, new p0: seq<Powerup>, new b: Before, new q0: seq<Bomb>)
      requires old(allocated(b) && allocated(q0))
      requires old(level.Sound() && Exploded(level, g0, p0, b, q0))
      requires unchanged(level, this`explosionTiles) && unchanged(old(level.player))
      requires forall k :: 0 <= k < |b.enemies| ==> b.enemies[k].State() == old(b.enemies[k].State())
      requires forall k :: 0 <= k < |level.bombs| && level.bombs[k] != this ==> level.bombs[k].exploded == old(level.bombs[k].exploded)
      ensures level.Sound() && Exploded(level, g0, p0, b, q0)
    {
      TriggeredSelf(level.bombs, this, explosionTiles);
      AliveFrame(b.enemies);
      forall k | 0 <= k < |level.enemies|
        ensures level.enemies[k].lives > 0
      {
        AliveExactly(b.enemies, level.enemies[k]);
      }
    }

    /** What explode does, from the grid `g0`, the powerups `p0`, the state
        `b` and the queue `pending0`: the blast is laid out, the damage done
        and the bombs it reaches are queued. */
    ghost predicate Exploded(level: Level, g0: TileGrid, p0: seq<Powerup>, b: Before, pending0: seq<Bomb>)
      reads this`explosionTiles, level`grid, level`powerups, level`player, level`enemies, level`score
      reads b.enemies`x, b.enemies`y, b.enemies`lives, b.enemies`isInvincible, b.enemies`invincibilityTimer
      reads level.player`lives, level.player`isInvincible, level.player`invincibilityTimer
      reads level`pending, level`bombs, level.bombs`exploded
    {
      Blasted(level, g0, p0) && DamageDone(level, b) && Scheduled(level, pending0)
    }

    /** The body of explode once the bomb is marked: lay out the blast
        from `g0` and `p0`, damage what `b` shows in it, chain to the bombs
        it reaches, give the bomb back. */
    method Detonate(level: Level, ghost b: Before, ghost g0: TileGrid, ghost p0: seq<Powerup>, ghost q0: seq<Bomb>)
      requires level.Sound() && (owner == null || owner == level.player)
      requires level.Snapshot() == b && level.grid == g0 && level.powerups == p0 && level.pending == q0
      modifies this`explosionTiles
      modifies level`grid, level`powerups, level`enemies, level`score, level`pending, level.enemies`lives, level.enemies`isInvincible, level.enemies`invincibilityTimer
      modifies level.player`lives, level.player`isInvincible, level.player`invincibilityTimer, level.player`bombCount
      ensures level.Sound() && Exploded(level, g0, p0, b, q0)
      ensures level.player.bombCount == old(level.player.bombCount) + (if owner != null then 1 else 0)
    {
      CreateExplosionTiles(level);
      DamageAndChain(level, b, g0, p0, q0);
    }

    /** checkDamage, checkChainReactions and the return of the bomb, once
        the blast is laid out from `g0` and `p0`; `b` is what the level
        looked like before. */
    method DamageAndChain(level: Level, ghost b: Before, ghost g0: TileGrid, ghost p0: seq<Powerup>, ghost q0: seq<Bomb>)
      requires level.Sound() && (owner == null || owner == level.player)
      requires level.Snapshot() == b && level.pending == q0 && Blasted(level, g0, p0)
      modifies level`enemies, level`score, level`pending, level.enemies`lives, level.enemies`isInvincible, level.enemies`invincibilityTimer
      modifies level.player`lives, level.player`isInvincible, level.player`invincibilityTimer, level.player`bombCount
      ensures level.Sound() && Exploded(level, g0, p0, b, q0)
      ensures level.player.bombCount == old(level.player.bombCount) + (if owner != null then 1 else 0)
    {
      Damage(level, b, g0, p0, q0);
      ChainAndReturn(level, b, g0, p0);
    }

    /** checkDamage within explode: the blast laid out from `g0` and `p0`
        and the queue `q0` stay as they are. */
    method Damage(level: Level, ghost b: Before, ghost g0: TileGrid, ghost p0: seq<Powerup>, ghost q0: seq<Bomb>)
      requires level.Sound() && level.Snapshot() == b && level.pending == q0 && Blasted(level, g0, p0)
      modifies level`enemies, level`score, level.enemies`lives, level.enemies`isInvincible, level.enemies`invincibilityTimer
      modifies level.player`lives, level.player`isInvincible, level.player`invincibilityTimer
      ensures level.Sound() && level.pending == q0 && Blasted(level, g0, p0) && DamageDone(level, b)
    {
      CheckDamage(level);
    }

    /** checkChainReactions and the return of the bomb, once the blast is
        laid out and the damage done. */
    method ChainAndReturn(level: Level, ghost b: Before, ghost g0: TileGrid, ghost p0: seq<Powerup>)
      requires level.Sound() && (owner == null || owner == level.player)
      requires Blasted(level, g0, p0) && DamageDone(level, b)
      modifies level`pending, level.player`bombCount
      ensures level.Sound() && Blasted(level, g0, p0)
      ensures DamageDone(level, b) && Scheduled(level, old(level.pending))
      ensures level.player.bombCount == old(level.player.bombCount) + (if owner != null then 1 else 0)
    {
      CheckChainReactions(level);
      ReturnToOwner(level, b, g0, p0);
    }

    /** The last step of explode: the bomb goes back to its owner, if any. */
    method ReturnToOwner(level: Level, ghost b: Before, ghost g0: TileGrid, ghost p0: seq<Powerup>)
      requires level.Sound() && (owner == null || owner == level.player)
      requires Blasted(level, g0, p0) && DamageDone(level, b)
      modifies level.player`bombCount
      ensures level.Sound() && Blasted(level, g0, p0) && DamageDone(level, b)
      ensures level.player.bombCount == old(level.player.bombCount) + (if owner != null then 1 else 0)
    {
      if owner != null {
        owner.ReturnBomb();
      }
    }

    /** The blast laid out from the grid `grid0` and the powerups
        `powerups0`: its cells as BombBlast.Explosion computes them, the
        blocks it reached destroyed and their drops appended. */
    ghost predicate Blasted(level: Level, grid0: TileGrid, powerups0: seq<Powerup>)
      reads this`explosionTiles, level`grid, level`powerups
    {
      WellFormed(grid0) &&
      var blast := Explosion(grid0, Centre(), power);
      explosionTiles == blast.tiles && level.grid == blast.grid &&
      level.powerups == powerups0 + Drops(level.drops, blast.destroyed)
    }

    /** Bomb.createExplosionTiles */
    method CreateExplosionTiles(level: Level)
      requires WellFormed(level.grid)
      modifies this`explosionTiles, level`grid, level`powerups
      ensures Blasted(level, old(level.grid), old(level.powerups))
    {
      explosionTiles := [];
      var startGridX := CellIndex(x);
      var startGridY := CellIndex(y);
      explosionTiles := explosionTiles + [Cell(startGridX, startGridY)];
      var directions := DIRECTIONS;
      for k := 0 to |directions|
        invariant WellFormed(level.grid)
        invariant var b := Spread(old(level.grid), Centre(), power, directions[..k]);
          explosionTiles == b.tiles && level.grid == b.grid &&
          level.powerups == old(level.powerups) + Drops(level.drops, b.destroyed)
      {
        ghost var b := Spread(old(level.grid), Centre(), power, directions[..k]);
        ghost var arm := Arm(b.grid, Centre(), directions[k], 1, power);
        SpreadStep(old(level.grid), Centre(), power, directions, k);
        DropsAppend(level.drops, b.destroyed, Destroyed(b.grid, arm));
        Associative(old(level.powerups), Drops(level.drops, b.destroyed), Drops(level.drops, Destroyed(b.grid, arm)));
        WalkArm(level, Cell(startGridX, startGridY), directions[k]);
      }
      assert directions[..|directions|] == DIRECTIONS;
    }

    /** One arm of the blast: walk away from `c` for at most `power` cells,
        stopping at the grid's edge (without the cell), at a wall (with it)
        or at a destructible block (with it, destroying it). */
    method WalkArm(level: Level, c: Cell, d: Dir)
      requires WellFormed(level.grid)
      modifies this`explosionTiles, level`grid, level`powerups
      ensures var arm := Arm(old(level.grid), c, d, 1, power);
        explosionTiles == old(explosionTiles) + arm &&
        level.grid == AfterArm(old(level.grid), arm) &&
        level.powerups == old(level.powerups) + Drops(level.drops, Destroyed(old(level.grid), arm))
    {
      ghost var g := level.grid;
      ghost var walked: seq<Cell> := [];
      WalkStart(g, c, d, power);
      var i := 1;
      while i <= power
        invariant level.grid == g && level.powerups == old(level.powerups)
        invariant explosionTiles == old(explosionTiles) + walked
        invariant Walked(g, c, d, i, power, walked)
        decreases power - i
      {
        var check := Step(c, d, i);
        var checkGridX := check.x;
        var checkGridY := check.y;
        if checkGridX < 0 || checkGridX >= GRID_WIDTH || checkGridY < 0 || checkGridY >= GRID_HEIGHT {
          WalkOff(g, c, d, i, power, walked);
          DropsNone(level.drops);
          return;
        }
        var tileType := level.grid[checkGridY][checkGridX];
        Associative(old(explosionTiles), walked, [Cell(checkGridX, checkGridY)]);
        explosionTiles := explosionTiles + [Cell(checkGridX, checkGridY)];
        if tileType == WALL {
          WalkInto(g, c, d, i, power, walked);
          DropsNone(level.drops);
          return;
        }
        if tileType == DESTRUCTIBLE {
          WalkInto(g, c, d, i, power, walked);
          level.DestroyBlock(checkGridX, checkGridY);
          DropsOne(level.drops, Cell(checkGridX, checkGridY));
          return;
        }
        WalkOn(g, c, d, i, power, walked);
        walked := walked + [Cell(checkGridX, checkGridY)];
        i := i + 1;
      }
      WalkOff(g, c, d, i, power, walked);
      DropsNone(level.drops);
    }

    /** Bomb.checkDamage, from the state `b`: every enemy on a blast cell
        takes one hit (and is removed and scored when it has no life left)
        and no enemy is skipped; then the player, if on a blast cell, takes
        one hit. */
    ghost predicate DamageDone(level: Level, b: Before)
      reads this`explosionTiles, level`player, level`enemies, level`score
      reads b.enemies`x, b.enemies`y, b.enemies`lives, b.enemies`isInvincible, b.enemies`invincibilityTimer
      reads level.player`lives, level.player`isInvincible, level.player`invincibilityTimer
    {
      level.player == b.player &&
      EnemiesDamaged(level, b.enemies, b.states, b.score) &&
      level.player.Status() ==
        if b.playerCell in explosionTiles then Hit(b.health, level.player.invincibilityDuration) else b.health
    }

    /** The enemy half of checkDamage, for the enemies `es` the level had, in
        the states `states`, with the score `score0`. */
    ghost predicate EnemiesDamaged(level: Level, es: seq<Enemy>, states: seq<EnemyState>, score0: int)
      reads this`explosionTiles, level`enemies, level`score
      reads es`x, es`y, es`lives, es`isInvincible, es`invincibilityTimer
    {
      |states| == |es| &&
      level.enemies == Alive(es) &&
      level.score == score0 + KILL_SCORE * (|es| - |level.enemies|) &&
      forall k :: 0 <= k < |es| ==> es[k].State() == Strike(states[k], explosionTiles)
    }

    /** What the enemy loop did survives a step that touches none of the
        enemies, the list or the score. */
    twostate lemma EnemiesKept(new level: Level, new es: seq<Enemy>, new states: seq<EnemyState>, score0: int)
      requires old(allocated(level) && allocated(es))
      requires old(EnemiesDamaged(level, es, states, score0))
      requires level.enemies == old(level.enemies) && level.score == old(level.score)
      requires explosionTiles == old(explosionTiles)
      requires forall k :: 0 <= k < |es| ==> unchanged(es[k])
      ensures EnemiesDamaged(level, es, states, score0)
    {
      AliveFrame(es);
    }

    method CheckDamage(level: Level)
      requires level.Sound()
      modifies level`enemies, level`score, level.enemies`lives, level.enemies`isInvincible, level.enemies`invincibilityTimer
      modifies level.player`lives, level.player`isInvincible, level.player`invincibilityTimer
      ensures level.Sound() && DamageDone(level, old(level.Snapshot()))
    {
      ghost var b := level.Snapshot();
      var playerCell := level.player.Here();
      CheckEnemies(level);
      CheckPlayer(level, b, playerCell);
    }

    /** The player half of checkDamage, once the enemy loop (from the state
        `b`) is done; `playerCell` is the player's cell. */
    method CheckPlayer(level: Level, ghost b: Before, playerCell: Cell)
      requires level.Sound() && level.player == b.player && playerCell == b.playerCell
      requires level.player.Status() == b.health
      requires EnemiesDamaged(level, b.enemies, b.states, b.score)
      modifies level.player`lives, level.player`isInvincible, level.player`invincibilityTimer
      ensures level.Sound() && DamageDone(level, b)
    {
      var playerHit := InBlast(playerCell);
      if playerHit {
        label Hit:
        level.DamagePlayer(b.enemies);
        EnemiesKept@Hit(level, b.enemies, b.states, b.score);
      }
    }

    /** The enemy loop of checkDamage, walking the list backwards so that a
        removal does not skip the next enemy. */
    method CheckEnemies(level: Level)
      requires level.Sound()
      modifies level`enemies, level`score, level.enemies`lives, level.enemies`isInvincible, level.enemies`invincibilityTimer
      ensures level.Sound()
      ensures EnemiesDamaged(level, old(level.enemies), old(States(level.enemies)), old(level.score))
    {
      ghost var es := level.enemies;
      ghost var before := States(es);
      var i := |level.enemies| - 1;
      assert es[i + 1..] == [] && es[..i + 1] == es;
      while i >= 0
        invariant -1 <= i < |es| && EnemyLoop(level, es, before, old(level.score), i)
        modifies level`enemies, level`score, es`lives, es`isInvincible, es`invincibilityTimer
      {
        EnemyTurn(level, es, before, old(level.score), i);
        i := i - 1;
      }
      EnemyLoopDone(level, es, before, old(level.score));
    }

    /** The loop is over once it has passed position 0. */
    lemma EnemyLoopDone(level: Level, es: seq<Enemy>, before: seq<EnemyState>, score0: int)
      requires EnemyLoop(level, es, before, score0, -1)
      ensures level.Sound() && EnemiesDamaged(level, es, before, score0)
    {
      assert es[..0] == [] && es[0..] == es;
    }

    /** Where the enemy loop stands before the turn of position `i`: the
        enemies after `i` have been struck, dead ones left the list and
        paid their points. */
    ghost predicate EnemyLoop(level: Level, es: seq<Enemy>, before: seq<EnemyState>, score0: int, i: int)
      reads this`explosionTiles, level`grid, level`player, level`enemies, level`bombs, level`pending, level`score
      reads level.enemies`lives, es`x, es`y, es`lives, es`isInvincible, es`invincibilityTimer
      reads level.player`x, level.player`y, level.player`moving, level.player`targetX, level.player`targetY, level.player`speed, level.player`lives
    {
      -1 <= i < |es| == |before| && Distinct(es) && level.Sound() &&
      level.enemies == es[..i + 1] + Alive(es[i + 1..]) &&
      level.score == score0 + KILL_SCORE * (|es| - |level.enemies|) &&
      forall k :: 0 <= k < |es| ==> es[k].State() == if i < k then Strike(before[k], explosionTiles) else before[k]
    }

    /** One turn of the enemy loop, as the loop sees it. */
    method EnemyTurn(level: Level, ghost es: seq<Enemy>, ghost before: seq<EnemyState>, ghost score0: int, i: int)
      requires 0 <= i && EnemyLoop(level, es, before, score0, i)
      modifies level`enemies, level`score, {es[i]}`lives, {es[i]}`isInvincible, {es[i]}`invincibilityTimer
      ensures EnemyLoop(level, es, before, score0, i - 1)
    {
      label Turn:
      CheckEnemyAt(level, es, i);
      StatesStep@Turn(es, before, explosionTiles, i);
    }

    /** One turn of the enemy loop: the enemy at position `i` of the list
        `es` the loop started from, which is still at position `i`. */
    method CheckEnemyAt(level: Level, ghost es: seq<Enemy>, i: int)
      requires level.Sound() && Distinct(es) && 0 <= i < |es|
      requires level.enemies == es[..i + 1] + Alive(es[i + 1..])
      modifies level`enemies, level`score, {es[i]}`lives, {es[i]}`isInvincible, {es[i]}`invincibilityTimer
      ensures level.Sound() && level.enemies == es[..i] + Alive(es[i..])
      ensures level.score == old(level.score) + KILL_SCORE * (|old(level.enemies)| - |level.enemies|)
      ensures es[i].State() == Strike(old(es[i].State()), explosionTiles)
      ensures forall k :: 0 <= k < |es| && es[k] != es[i] ==> unchanged(es[k])
    {
      var enemy := level.enemies[i];
      ghost var rest := Alive(es[i + 1..]);
      assert enemy == es[i] && enemy !in es[i + 1..];
      StrikeEnemy(level, enemy, i);
      AliveFrame(es[i + 1..]);
      AliveStep(es, i);
      Splice(es, i, rest, enemy.lives > 0);
    }

    /** The enemy `enemy`, at position `at` of the level's list, takes a
        hit if it stands on a blast cell. */
    method StrikeEnemy(level: Level, enemy: Enemy, ghost at: nat)
      requires level.Sound() && at < |level.enemies| && level.enemies[at] == enemy
      modifies level`enemies, level`score, enemy`lives, enemy`isInvincible, enemy`invincibilityTimer
      ensures level.Sound() && enemy.State() == Strike(old(enemy.State()), explosionTiles)
      ensures enemy.lives > 0 ==> level.enemies == old(level.enemies) && level.score == old(level.score)
      ensures enemy.lives <= 0 ==>
        level.enemies == old(level.enemies)[..at] + old(level.enemies)[at + 1..] &&
        level.score == old(level.score) + KILL_SCORE
    {
      var enemyHit := InBlast(enemy.Here());
      if enemyHit {
        level.DamageEnemy(enemy, at);
      }
    }

    /** Whether `c` is one of the blast cells (the inner loops of
        checkDamage and checkChainReactions). */
    method InBlast(c: Cell) returns (hit: bool)
      ensures hit <==> c in explosionTiles
    {
      for k := 0 to |explosionTiles|
        invariant c !in explosionTiles[..k]
      {
        var tile := explosionTiles[k];
        if tile.x == c.x && tile.y == c.y {
          return true;
        }
      }
      assert explosionTiles[..|explosionTiles|] == explosionTiles;
      return false;
    }

    /** Bomb.checkChainReactions: every other bomb of the level that has not
        exploded and stands on a blast cell is scheduled to explode. */
    ghost predicate Scheduled(level: Level, pending0: seq<Bomb>)
      reads this`explosionTiles, level`pending, level`bombs, level.bombs`exploded
    {
      level.pending == pending0 + Triggered(level.bombs, this, explosionTiles)
    }

    method CheckChainReactions(level: Level)
      requires level.Sound()
      modifies level`pending
      ensures level.Sound() && Scheduled(level, old(level.pending))
    {
      var bombs := level.bombs;
      // the setTimeout calls of this loop, in order
      var timeouts: seq<Bomb> := [];
      for k := 0 to |bombs|
        invariant timeouts == Triggered(bombs[..k], this, explosionTiles)
        invariant level.pending == old(level.pending)
      {
        var otherBomb := bombs[k];
        TriggeredStep(bombs, this, explosionTiles, k);
        if otherBomb == this || otherBomb.exploded {
          continue;
        }
        var hit := InBlast(otherBomb.Centre());
        if hit {
          timeouts := timeouts + [otherBomb];
        }
      }
      assert bombs[..|bombs|] == bombs;
      assert timeouts == Triggered(level.bombs, this, explosionTiles);
      TriggeredFrom(level.bombs, this, explosionTiles);
      level.Schedule(timeouts);
    }
  }

  // ===========================================================================
  // Level

  class Level {
    var grid: TileGrid
    var player: Player
    var enemies: seq<Enemy>
    var bombs: seq<Bomb>
    var powerups: seq<Powerup>
    /** The global `score`. */
    var score: int
    /** Bombs handed to setTimeout by a chain reaction, not yet exploded by it. */
    var pending: seq<Bomb>
    /** The Math.random draws of initializeGrid, addEnemies and destroyBlock. */
    const blocks: Cell -> bool
    const rolls: nat -> (nat, nat, nat)
    const drops: Cell -> Option<nat>

    /** new Level(): empty lists, then initializeGrid.  The source leaves the
        player null until initializeGrid creates it; here the field holds a
        player at the same start cell from the outset, and initializeGrid
        replaces it by a new one. */
    constructor (blocks0: Cell -> bool, rolls0: nat -> (nat, nat, nat), drops0: Cell -> Option<nat>, score0: int)
      ensures blocks == blocks0 && rolls == rolls0 && drops == drops0
      ensures grid == InitialGrid(blocks0)
      ensures fresh(player) && player.x == Pixel(1) && player.y == Pixel(1) && player.Valid()
      ensures |enemies| == |Spots(grid, rolls, START_ENEMIES)|
      ensures forall k :: 0 <= k < |enemies| ==> fresh(enemies[k]) && PlacedAt(enemies[k], Spots(grid, rolls, START_ENEMIES)[k])
      ensures bombs == [] && powerups == [] && pending == [] && score == score0
      ensures Valid()
    {
      grid := [];
      player := new Player(Pixel(1), Pixel(1));
      enemies := [];
      bombs := [];
      powerups := [];
      score := score0;
      pending := [];
      blocks, rolls, drops := blocks0, rolls0, drops0;
      new;
      InitializeGrid();
    }

    /** An enemy just placed by addEnemies for the attempt result `spot`. */
    ghost predicate PlacedAt(e: Enemy, spot: (Cell, nat))
      reads e
    {
      e.x == Pixel(spot.0.x) && e.y == Pixel(spot.0.y) && spot.1 < |ENEMY_TYPES| &&
      e.kind == ENEMY_TYPES[spot.1] && e.lives == StartingLives(e.kind) && !e.moving && !e.isInvincible
    }

    /** Level.initializeGrid: a floor grid, the outer frame and the inner
        pillars as walls, the player at cell (1, 1) with its start area
        cleared, destructible blocks on 40% of the remaining floor, the start
        area cleared again, then five enemies. */
    method InitializeGrid()
      requires grid == [] && enemies == []
      modifies this`grid, this`player, this`enemies
      ensures grid == InitialGrid(blocks)
      ensures fresh(player) && player.x == Pixel(1) && player.y == Pixel(1) && player.Valid()
      ensures |enemies| == |Spots(grid, rolls, START_ENEMIES)|
      ensures forall k :: 0 <= k < |enemies| ==> fresh(enemies[k]) && PlacedAt(enemies[k], Spots(grid, rolls, START_ENEMIES)[k])
      ensures Distinct(enemies) && forall k :: 0 <= k < |enemies| ==> enemies[k].lives > 0
    {
      FillFloor();
      AddOuterWalls();
      AddInnerWalls();
      var startX := 1;
      var startY := 1;
      player := new Player(Pixel(startX), Pixel(startY));
      ClearStartArea();
      ScatterBlocks();
      ClearStartArea();
      InitialGridIs(grid, blocks);
      ghost var added := AddEnemies(START_ENEMIES);
      assert enemies == added;
    }

    /** The first loops of initializeGrid: GRID_HEIGHT rows of GRID_WIDTH
        floor tiles (on the empty grid the constructor leaves). */
    method FillFloor()
      requires grid == []
      modifies this`grid
      ensures WellFormed(grid)
      ensures forall j, i :: 0 <= j < GRID_HEIGHT && 0 <= i < GRID_WIDTH ==> grid[j][i] == FLOOR
    {
      for y := 0 to GRID_HEIGHT
        invariant |grid| == y
        invariant forall j :: 0 <= j < y ==> |grid[j]| == GRID_WIDTH
        invariant forall j, i :: 0 <= j < y && 0 <= i < GRID_WIDTH ==> grid[j][i] == FLOOR
      {
        var row: seq<int> := [];
        for x := 0 to GRID_WIDTH
          invariant |row| == x && forall i :: 0 <= i < x ==> row[i] == FLOOR
        {
          row := row + [FLOOR];
        }
        grid := grid + [row];
      }
    }

    /** The outer walls: the top and bottom rows, then the side columns. */
    method AddOuterWalls()
      requires WellFormed(grid)
      requires forall j, i :: 0 <= j < GRID_HEIGHT && 0 <= i < GRID_WIDTH ==> grid[j][i] == FLOOR
      modifies this`grid
      ensures WellFormed(grid)
      ensures forall j, i :: 0 <= j < GRID_HEIGHT && 0 <= i < GRID_WIDTH ==> grid[j][i] == WalledTile(i, j, 0, 0)
    {
      for x := 0 to GRID_WIDTH
        invariant WellFormed(grid)
        invariant forall j, i :: 0 <= j < GRID_HEIGHT && 0 <= i < GRID_WIDTH ==> grid[j][i] == FramedTile(i, j, x, 1)
      {
        grid := SetTile(grid, x, 0, WALL);
        grid := SetTile(grid, x, GRID_HEIGHT - 1, WALL);
      }
      for y := 1 to GRID_HEIGHT - 1
        invariant WellFormed(grid)
        invariant forall j, i :: 0 <= j < GRID_HEIGHT && 0 <= i < GRID_WIDTH ==> grid[j][i] == FramedTile(i, j, GRID_WIDTH, y)
      {
        grid := SetTile(grid, 0, y, WALL);
        grid := SetTile(grid, GRID_WIDTH - 1, y, WALL);
      }
    }

    /** The inner walls: every second cell of every second row, from (2, 2). */
    method AddInnerWalls()
      requires WellFormed(grid)
      requires forall j, i :: 0 <= j < GRID_HEIGHT && 0 <= i < GRID_WIDTH ==> grid[j][i] == WalledTile(i, j, 0, 0)
      modifies this`grid
      ensures WellFormed(grid)
      ensures forall j, i :: 0 <= j < GRID_HEIGHT && 0 <= i < GRID_WIDTH ==> grid[j][i] == WalledTile(i, j, 0, GRID_HEIGHT)
    {
      var y := 2;
      while y < GRID_HEIGHT - 2
        invariant 2 <= y <= GRID_HEIGHT - 2 && y % 2 == 0 && WellFormed(grid)
        invariant forall j, i :: 0 <= j < GRID_HEIGHT && 0 <= i < GRID_WIDTH ==> grid[j][i] == WalledTile(i, j, 0, y)
      {
        var x := 2;
        while x < GRID_WIDTH - 2
          invariant 2 <= x <= GRID_WIDTH - 1 && x % 2 == 0 && WellFormed(grid)
          invariant forall j, i :: 0 <= j < GRID_HEIGHT && 0 <= i < GRID_WIDTH ==> grid[j][i] == WalledTile(i, j, x, y)
        {
          grid := SetTile(grid, x, y, WALL);
          x := x + 2;
        }
        y := y + 2;
      }
    }

    /** Clearing the player's start area: cell (1, 1) and, when they exist,
        its right and lower neighbours become floor. */
    method ClearStartArea()
      requires WellFormed(grid)
      modifies this`grid
      ensures WellFormed(grid)
      ensures forall j, i :: 0 <= j < GRID_HEIGHT && 0 <= i < GRID_WIDTH ==>
        grid[j][i] == if IsStartArea(i, j) then FLOOR else old(grid)[j][i]
    {
      var startX, startY := 1, 1;
      grid := SetTile(grid, startX, startY, FLOOR);
      if startX + 1 < GRID_WIDTH {
        grid := SetTile(grid, startX + 1, startY, FLOOR);
      }
      if startY + 1 < GRID_HEIGHT {
        grid := SetTile(grid, startX, startY + 1, FLOOR);
      }
    }

    /** The destructible blocks: every inner floor cell turns destructible
        when its draw says so. */
    method ScatterBlocks()
      requires WellFormed(grid)
      requires forall j, i :: 0 <= j < GRID_HEIGHT && 0 <= i < GRID_WIDTH ==>
        grid[j][i] == if IsStartArea(i, j) then FLOOR else WalledTile(i, j, 0, GRID_HEIGHT)
      modifies this`grid
      ensures WellFormed(grid)
      ensures forall j, i :: 0 <= j < GRID_HEIGHT && 0 <= i < GRID_WIDTH ==>
        grid[j][i] == ScatteredTile(blocks, i, j, 0, GRID_HEIGHT)
    {
      for y := 1 to GRID_HEIGHT - 1
        invariant WellFormed(grid)
        invariant forall j, i :: 0 <= j < GRID_HEIGHT && 0 <= i < GRID_WIDTH ==> grid[j][i] == ScatteredTile(blocks, i, j, 0, y)
      {
        for x := 1 to GRID_WIDTH - 1
          invariant WellFormed(grid)
          invariant forall j, i :: 0 <= j < GRID_HEIGHT && 0 <= i < GRID_WIDTH ==> grid[j][i] == ScatteredTile(blocks, i, j, x, y)
        {
          if grid[y][x] == FLOOR {
            if blocks(Cell(x, y)) {
              grid := SetTile(grid, x, y, DESTRUCTIBLE);
            }
          }
        }
      }
    }

    /** Level.addEnemies: at most MAX_ATTEMPTS random cells are tried; each
        inner floor cell outside the 4x4 start corner gets an enemy of a
        random type, until `count` are placed. */
    method AddEnemies(count: int) returns (ghost added: seq<Enemy>)
      requires WellFormed(grid)
      modifies this`enemies
      ensures enemies == old(enemies) + added && |added| == |Spots(grid, rolls, count)|
      ensures forall k :: 0 <= k < |added| ==>
        fresh(added[k]) && PlacedAt(added[k], Spots(grid, rolls, count)[k]) && added[k].lives > 0
      ensures Distinct(added)
    {
      var placedEnemies := 0;
      var attempts := 0;
      var maxAttempts := MAX_ATTEMPTS;
      ghost var g, draws := grid, rolls;
      ghost var spots: seq<(Cell, nat)> := [];
      added := [];
      while placedEnemies < count && attempts < maxAttempts
        invariant 0 <= attempts <= maxAttempts && placedEnemies == |spots| == |added|
        invariant grid == g && spots == Placed(g, draws, count, attempts)
        invariant enemies == old(enemies) + added
        invariant forall k :: 0 <= k < |added| ==> fresh(added[k]) && PlacedAt(added[k], spots[k]) && added[k].lives > 0
        invariant Distinct(added)
        decreases maxAttempts - attempts
      {
        attempts := attempts + 1;
        // the three draws of this attempt
        var roll := rolls(attempts - 1);
        var x := roll.0 % (GRID_WIDTH - 2) + 1;
        var y := roll.1 % (GRID_HEIGHT - 2) + 1;
        var t: nat := roll.2 % |ENEMY_TYPES|;
        PlacedStep(g, draws, count, attempts, spots, x, y, t);
        var free := grid[y][x] == FLOOR && (x > 3 || y > 3);
        ghost var next := Placed(g, draws, count, attempts);
        if free {
          var enemy := PlaceEnemy(x, y, t);
          placedEnemies := placedEnemies + 1;
          spots := spots + [(Cell(x, y), t)];
          added := added + [enemy];
        }
        assert spots == next;
      }
      if attempts < maxAttempts {
        PlacedFull(g, draws, count, attempts, maxAttempts);
      }
      assert spots == Spots(g, rolls, count);
    }

    /** The body of addEnemies' successful attempt: an enemy of type
        ENEMY_TYPES[t] on cell (x, y) joins the list. */
    method PlaceEnemy(x: int, y: int, t: nat) returns (enemy: Enemy)
      requires t < |ENEMY_TYPES|
      modifies this`enemies
      ensures fresh(enemy) && enemies == old(enemies) + [enemy]
      ensures PlacedAt(enemy, (Cell(x, y), t)) && enemy.lives > 0
    {
      var kind := ENEMY_TYPES[t];
      enemy := new Enemy(Pixel(x), Pixel(y), kind);
      StatsTable(kind);
      enemies := enemies + [enemy];
    }

    /** What every bomb method relies on: a well-formed grid, a player on it,
        each enemy listed once and alive, and every bomb owned by the player
        (or by nobody). */
    ghost predicate Sound()
      reads this`grid, this`player, this`enemies, this`bombs, this`pending, enemies`lives
      reads player`x, player`y, player`moving, player`targetX, player`targetY, player`speed, player`lives
    {
      WellFormed(grid) && player.Valid() &&
      Distinct(enemies) && (forall k :: 0 <= k < |enemies| ==> enemies[k].lives > 0) &&
      Owned(bombs, player) && Owned(pending, player)
    }

    /** What checkDamage looks at. */
    ghost function Snapshot(): (r: Before)
      reads this`player, this`enemies, this`score
      reads enemies`x, enemies`y, enemies`lives, enemies`isInvincible, enemies`invincibilityTimer
      reads player`x, player`y, player`lives, player`isInvincible, player`invincibilityTimer
      ensures r.player == player && r.enemies == enemies && r.score == score
      ensures r.states == States(enemies)
    {
      Before(player, player.Here(), player.Status(), enemies, States(enemies), score)
    }

    /** Sound, and each bomb listed once. */
    ghost predicate Valid()
      reads this, player, enemies
    {
      Sound() && Distinct(bombs)
    }

    /** The setTimeout calls of a chain reaction, queued in order. */
    method Schedule(timeouts: seq<Bomb>)
      requires Sound() && forall k :: 0 <= k < |timeouts| ==> timeouts[k] in bombs
      modifies this`pending
      ensures Sound() && pending == old(pending) + timeouts
    {
      pending := pending + timeouts;
    }

    /** Level.destroyBlock: the cell becomes floor and, on a 30% draw, a
        powerup of a random type is dropped on it. */
    method DestroyBlock(x: int, y: int)
      requires WellFormed(grid) && InBounds(x, y)
      modifies this`grid, this`powerups
      ensures grid == SetTile(old(grid), x, y, FLOOR)
      ensures powerups == old(powerups) + DropAt(drops(Cell(x, y)), Cell(x, y))
    {
      grid := SetTile(grid, x, y, FLOOR);
      match drops(Cell(x, y)) {
        case Some(k) =>
          var types := POWERUP_TYPES;
          var kind := types[k % |types|];
          powerups := powerups + [Powerup(Pixel(x), Pixel(y), kind)];
        case None =>
      }
    }

    /** Level.removeEnemy: splice out the first occurrence, if any. */
    method RemoveEnemy(enemy: Enemy)
      modifies this`enemies
      ensures var i := IndexOf(old(enemies), enemy);
        (i < 0 ==> enemies == old(enemies)) &&
        (i >= 0 ==> enemies == old(enemies)[..i] + old(enemies)[i + 1..])
      ensures Distinct(old(enemies)) ==>
        Distinct(enemies) && enemy !in enemies &&
        forall e :: e in old(enemies) && e != enemy ==> e in enemies
    {
      var index := IndexOf(enemies, enemy);
      if index != -1 {
        enemies := enemies[..index] + enemies[index + 1..];
      }
    }

    /** Enemy.takeDamage as a whole: the enemy's own hit, then, when it has
        no life left, its removal from the level and 100 points.  `at` is
        where the enemy stands in the list. */
    method DamageEnemy(enemy: Enemy, ghost at: nat)
      requires Sound() && at < |enemies| && enemies[at] == enemy
      modifies this`enemies, this`score, enemy`lives, enemy`isInvincible, enemy`invincibilityTimer
      ensures Sound() && enemy.State() == AfterHit(old(enemy.State()))
      ensures enemy.lives > 0 ==> enemies == old(enemies) && score == old(score)
      ensures enemy.lives <= 0 ==>
        enemies == old(enemies)[..at] + old(enemies)[at + 1..] && score == old(score) + KILL_SCORE
    {
      var died := enemy.TakeDamage();
      if died {
        IndexOfDistinct(enemies, at);
        RemoveEnemy(enemy);
        score := score + KILL_SCORE;
      }
    }

    /** Player.takeDamage, called by a bomb on the level's player; the
        enemies `es` are not touched. */
    method DamagePlayer(ghost es: seq<Enemy>)
      requires Sound()
      modifies player`lives, player`isInvincible, player`invincibilityTimer
      ensures Sound() && player.Status() == Hit(old(player.Status()), player.invincibilityDuration)
      ensures forall k :: 0 <= k < |es| ==> unchanged(es[k])
    {
      player.TakeDamage();
    }

    /** Level.isWall: whether the tile under the pixel (x, y) (Math.floor
        cells) is a wall.  A row off the grid makes the source throw, so the
        row must exist; a column off the grid reads `undefined`, no wall. */
    function IsWall(x: real, y: real): (r: bool)
      reads this`grid
      requires WellFormed(grid) && 0 <= FloorIndex(y) < GRID_HEIGHT
      ensures r <==> InBounds(FloorIndex(x), FloorIndex(y)) && TileAt(grid, Cell(FloorIndex(x), FloorIndex(y))) == WALL
    {
      var gridX, gridY := FloorIndex(x), FloorIndex(y);
      0 <= gridX < |grid[gridY]| && grid[gridY][gridX] == WALL
    }

    /** Level.isDestructible, the same query for a destructible block. */
    function IsDestructible(x: real, y: real): (r: bool)
      reads this`grid
      requires WellFormed(grid) && 0 <= FloorIndex(y) < GRID_HEIGHT
      ensures r <==> InBounds(FloorIndex(x), FloorIndex(y)) && TileAt(grid, Cell(FloorIndex(x), FloorIndex(y))) == DESTRUCTIBLE
    {
      var gridX, gridY := FloorIndex(x), FloorIndex(y);
      0 <= gridX < |grid[gridY]| && grid[gridY][gridX] == DESTRUCTIBLE
    }

    /** Every pixel of tile (i, j) asks about tile (i, j) itself, and no
        tile is both a wall and destructible. */
    lemma TileQuery(i: int, j: int, px: real, py: real)
      requires WellFormed(grid) && InBounds(i, j)
      requires Pixel(i) <= px < Pixel(i + 1) && Pixel(j) <= py < Pixel(j + 1)
      ensures 0 <= FloorIndex(py) < GRID_HEIGHT
      ensures IsWall(px, py) <==> grid[j][i] == WALL
      ensures IsDestructible(px, py) <==> grid[j][i] == DESTRUCTIBLE
      ensures !(IsWall(px, py) && IsDestructible(px, py))
    {
      FloorIndexInTile(i, px);
      FloorIndexInTile(j, py);
    }

    /** Level.addBomb */
    method AddBomb(bomb: Bomb)
      modifies this`bombs
      ensures bombs == old(bombs) + [bomb]
    {
      bombs := bombs + [bomb];
    }

    /** Level.checkWinCondition: the level is won once no enemy is left. */
    function CheckWinCondition(): (r: bool)
      reads this`enemies
      ensures r <==> enemies == []
      ensures r ==> forall e: Enemy :: e !in enemies
    {
      |enemies| == 0
    }

    /** Whether some enemy of the level stands on cell `c`, cells taken
        with Math.round. */
    ghost predicate Touched(c: Cell)
      reads this`enemies, enemies`x, enemies`y
    {
      exists k :: 0 <= k < |enemies| && enemies[k].Here() == c
    }

    /** Level.checkPlayerEnemyCollisions: the player takes damage once when
        at least one enemy shares its cell (Math.round cells); the scan
        stops at the first such enemy. */
    method CheckPlayerEnemyCollisions()
      requires Sound()
      modifies player`lives, player`isInvincible, player`invincibilityTimer
      ensures Sound()
      ensures player.Status() ==
        if Touched(player.Here()) then Hit(old(player.Status()), player.invincibilityDuration) else old(player.Status())
    {
      var playerGridX := CellIndex(player.x);
      var playerGridY := CellIndex(player.y);
      for i := 0 to |enemies|
        invariant forall k :: 0 <= k < i ==> enemies[k].Here() != Cell(playerGridX, playerGridY)
        invariant player.Status() == old(player.Status())
      {
        var enemy := enemies[i];
        var enemyGridX := CellIndex(enemy.x);
        var enemyGridY := CellIndex(enemy.y);
        if playerGridX == enemyGridX && playerGridY == enemyGridY {
          player.TakeDamage();
          return;
        }
      }
    }

    /** Level.checkPowerupCollisions: walking the list from its end, every
        powerup on the player's cell (Math.floor cells) is applied to the
        player and spliced out. */
    method CheckPowerupCollisions()
      requires Sound()
      modifies this`powerups, player`speed, player`maxBombs, player`bombCount, player`bombRange
      modifies player`collectedSpeed, player`collectedBomb, player`collectedRange
      ensures Sound()
      ensures powerups == Remaining(old(powerups), Cell(FloorIndex(player.x), FloorIndex(player.y)))
      ensures player.Gear() == Gather(old(player.Gear()), old(powerups), Cell(FloorIndex(player.x), FloorIndex(player.y)))
    {
      ghost var P, K0 := powerups, player.Gear();
      ghost var c := Cell(FloorIndex(player.x), FloorIndex(player.y));
      var i := |powerups| - 1;
      while i >= 0
        invariant -1 <= i < |P| && PowerupLoop(P, K0, c, i)
      {
        PowerupTurn(P, K0, c, i);
        i := i - 1;
      }
    }

    /** Where checkPowerupCollisions stands before the turn of position `i`
        of the list `P` it started from: the powerups after `i` on cell `c`
        are picked up and gone. */
    ghost predicate PowerupLoop(P: seq<Powerup>, K0: Kit, c: Cell, i: int)
      reads this`grid, this`player, this`enemies, this`bombs, this`pending, this`powerups, enemies`lives, player
    {
      -1 <= i < |P| && Sound() && c == Cell(FloorIndex(player.x), FloorIndex(player.y)) &&
      powerups == P[..i + 1] + Remaining(P[i + 1..], c) &&
      player.Gear() == Gather(K0, P[i + 1..], c)
    }

    /** One turn of checkPowerupCollisions' loop. */
    method PowerupTurn(ghost P: seq<Powerup>, ghost K0: Kit, ghost c: Cell, i: int)
      requires 0 <= i && PowerupLoop(P, K0, c, i)
      modifies this`powerups, player`speed, player`maxBombs, player`bombCount, player`bombRange
      modifies player`collectedSpeed, player`collectedBomb, player`collectedRange
      ensures PowerupLoop(P, K0, c, i - 1)
    {
      var powerup := powerups[i];
      var playerGridX := FloorIndex(player.x);
      var playerGridY := FloorIndex(player.y);
      var powerupGridX := FloorIndex(powerup.x);
      var powerupGridY := FloorIndex(powerup.y);
      RemainingStep(P, i, c);
      GatherStep(K0, P, i, c);
      Splice(P, i, Remaining(P[i + 1..], c), !OnCell(P[i], c));
      if playerGridX == powerupGridX && playerGridY == powerupGridY {
        player.AddPowerup(powerup.kind);
        powerups := powerups[..i] + powerups[i + 1..];
      }
    }

    /** Level.update: the player moves and meets the enemies, every enemy
        takes its turn, every bomb burns or shows its explosion (finished
        ones leave the list, walking it backwards), and the player picks up
        what lies on its cell.  `picks(i)` is the random draw of the enemy at
        position i. */
    method Update(deltaTime: real, picks: nat -> nat)
      requires Valid()
      modifies this`grid, this`powerups, this`enemies, this`score, this`pending, this`bombs
      modifies player, enemies, bombs
      ensures Valid()
      ensures bombs == Unfinished(old(bombs))
      ensures forall k :: 0 <= k < |enemies| ==> enemies[k] in old(enemies)
      ensures forall p :: p in powerups ==> !OnCell(p, Cell(FloorIndex(player.x), FloorIndex(player.y)))
    {
      UpdateActors(deltaTime, picks);
      UpdateItems(deltaTime);
    }

    /** The last two steps of update: the bombs, then the powerups. */
    method UpdateItems(deltaTime: real)
      requires Valid()
      modifies this`grid, this`powerups, this`enemies, this`score, this`pending, this`bombs
      modifies player`lives, player`isInvincible, player`invincibilityTimer, player`bombCount
      modifies player`speed, player`maxBombs, player`bombRange
      modifies player`collectedSpeed, player`collectedBomb, player`collectedRange
      modifies enemies`lives, enemies`isInvincible, enemies`invincibilityTimer
      modifies bombs`timer, bombs`exploded, bombs`explosionTimer, bombs`explosionTiles, bombs`finished
      ensures Valid()
      ensures bombs == Unfinished(old(bombs))
      ensures forall k :: 0 <= k < |enemies| ==> enemies[k] in old(enemies)
      ensures forall p :: p in powerups ==> !OnCell(p, Cell(FloorIndex(player.x), FloorIndex(player.y)))
    {
      ghost var timers, flags := UpdateBombs(deltaTime);
      ghost var left := bombs;
      CheckPowerupCollisions();
      assert left == Unfinished(old(bombs));
    }

    /** The first two steps of update: the player, then the enemies. */
    method UpdateActors(deltaTime: real, picks: nat -> nat)
      requires Sound()
      modifies player`x, player`y, player`moving, player`moveProgress
      modifies player`lives, player`isInvincible, player`invincibilityTimer, enemies
      ensures Sound()
    {
      UpdatePlayer(deltaTime);
      UpdateEnemies(deltaTime, picks);
    }

    /** The player part of update: player.update, then the collision check.
        A touching enemy costs a life only when the invincibility window,
        counted down first, is over. */
    method UpdatePlayer(deltaTime: real)
      requires Sound()
      modifies player`x, player`y, player`moving, player`moveProgress
      modifies player`lives, player`isInvincible, player`invincibilityTimer
      ensures Sound()
      ensures player.lives == old(player.lives) -
        if Touched(player.Here()) && old(player.lives) > 0 &&
           !(old(player.isInvincible) && old(player.invincibilityTimer) - deltaTime > 0.0)
        then 1 else 0
    {
      player.Update(deltaTime);
      CheckPlayerEnemyCollisions();
    }

    /** The enemy loop of update, in list order; enemy.update reads the
        grid, the bombs and the player's position from the level.  No enemy
        loses a life and every invincibility window is counted down. */
    method UpdateEnemies(deltaTime: real, picks: nat -> nat)
      requires Sound()
      modifies enemies
      ensures Sound()
      ensures forall k :: 0 <= k < |enemies| ==>
        enemies[k].lives == old(enemies[k].lives) &&
        enemies[k].isInvincible == (old(enemies[k].isInvincible) && old(enemies[k].invincibilityTimer) - deltaTime > 0.0)
    {
      ghost var s0 := States(enemies);
      for i := 0 to |enemies|
        invariant Sound() && Ticked(s0, deltaTime, i)
      {
        UpdateEnemy(s0, deltaTime, picks, i);
      }
    }

    /** Where the enemy loop of update stands before the turn of position
        `i`, the list having started in the states `s0`: the enemies before
        `i` have counted their invulnerability down, none has lost a life. */
    ghost predicate Ticked(s0: seq<EnemyState>, deltaTime: real, i: int)
      reads this`enemies, enemies`lives, enemies`isInvincible, enemies`invincibilityTimer
    {
      |s0| == |enemies| &&
      forall k :: 0 <= k < |enemies| ==>
        enemies[k].lives == s0[k].lives &&
        enemies[k].isInvincible == (if k < i then s0[k].isInvincible && s0[k].invincibilityTimer - deltaTime > 0.0
          else s0[k].isInvincible) &&
        (i <= k ==> enemies[k].invincibilityTimer == s0[k].invincibilityTimer)
    }

    /** One turn of the enemy loop: enemy.update for position `i`. */
    method UpdateEnemy(ghost s0: seq<EnemyState>, deltaTime: real, picks: nat -> nat, i: int)
      requires 0 <= i < |enemies| && Sound() && Ticked(s0, deltaTime, i)
      modifies enemies[i]
      ensures Sound() && Ticked(s0, deltaTime, i + 1)
    {
      var enemy := enemies[i];
      enemy.Update(deltaTime, grid, Views(bombs), player.x, player.y, picks(i));
      assert forall k :: 0 <= k < |enemies| && k != i ==> enemies[k] != enemy;
    }

    /** Where update's bomb loop stands before the turn of position `i` of
        the list `B` it started from, whose timers were `T0` and flags
        `X0`: the bombs after `i` have been updated and the finished ones
        spliced out; the enemy list `E` has only lost enemies. */
    ghost predicate BombLoop(B: seq<Bomb>, T0: seq<real>, X0: seq<bool>, E: seq<Enemy>, deltaTime: real, i: int)
      reads this`grid, this`player, this`enemies, this`bombs, this`pending, enemies`lives, player
      reads B`finished, B`timer, B`exploded
    {
      -1 <= i < |B| && Sound() && Distinct(B) &&
      bombs == B[..i + 1] + Unfinished(B[i + 1..]) &&
      (forall k :: 0 <= k < |enemies| ==> enemies[k] in E) &&
      Burnt(B, T0, X0, deltaTime, i)
    }

    /** The bomb loop of update: every bomb burns its fuse (exploding once it
        is spent) or counts its explosion down; the finished ones leave the
        list. */
    method UpdateBombs(deltaTime: real) returns (ghost T0: seq<real>, ghost X0: seq<bool>)
      requires Valid()
      modifies this`grid, this`powerups, this`enemies, this`score, this`pending, this`bombs
      modifies player`lives, player`isInvincible, player`invincibilityTimer, player`bombCount
      modifies enemies`lives, enemies`isInvincible, enemies`invincibilityTimer
      modifies bombs`timer, bombs`exploded, bombs`explosionTimer, bombs`explosionTiles, bombs`finished
      ensures Valid()
      ensures bombs == Unfinished(old(bombs))
      ensures forall k :: 0 <= k < |enemies| ==> enemies[k] in old(enemies)
      ensures T0 == old(Timers(bombs)) && X0 == old(Flags(bombs))
      ensures Burnt(old(bombs), T0, X0, deltaTime, -1)
    {
      ghost var B, E := bombs, enemies;
      T0, X0 := Timers(bombs), Flags(bombs);
      var i := |bombs| - 1;
      assert B[i + 1..] == [] && B[..i + 1] == B;
      while i >= 0
        invariant -1 <= i < |B| && BombLoop(B, T0, X0, E, deltaTime, i)
      {
        UpdateBomb(B, T0, X0, E, deltaTime, i);
        RemoveIfFinished(B, T0, X0, E, deltaTime, i);
        i := i - 1;
      }
      BombLoopDone(B, T0, X0, E, deltaTime);
    }

    /** The bomb loop is over once it has passed position 0. */
    lemma BombLoopDone(B: seq<Bomb>, T0: seq<real>, X0: seq<bool>, E: seq<Enemy>, deltaTime: real)
      requires BombLoop(B, T0, X0, E, deltaTime, -1)
      ensures Valid() && bombs == Unfinished(B) && forall k :: 0 <= k < |enemies| ==> enemies[k] in E
      ensures Burnt(B, T0, X0, deltaTime, -1)
    {
      assert B[..0] == [] && B[0..] == B;
      UnfinishedDistinct(B);
    }

    /** bomb.update for the bomb at position `i` of the loop. */
    method UpdateBomb(ghost B: seq<Bomb>, ghost T0: seq<real>, ghost X0: seq<bool>, ghost E: seq<Enemy>, deltaTime: real, i: int)
      requires 0 <= i && BombLoop(B, T0, X0, E, deltaTime, i)
      modifies this`grid, this`powerups, this`enemies, this`score, this`pending
      modifies player`lives, player`isInvincible, player`invincibilityTimer, player`bombCount
      modifies E`lives, E`isInvincible, E`invincibilityTimer
      modifies {B[i]}`timer, {B[i]}`exploded, {B[i]}`explosionTimer, {B[i]}`explosionTiles, {B[i]}`finished
      ensures Sound() && bombs == old(bombs) && (forall k :: 0 <= k < |enemies| ==> enemies[k] in E)
      ensures bombs == B[..i + 1] + Unfinished(B[i + 1..])
      ensures Burnt(B, T0, X0, deltaTime, i - 1)
    {
      var bomb := bombs[i];
      assert bomb == B[i] && bomb !in B[i + 1..];
      TickBomb(bomb, deltaTime);
      forall k | 0 <= k < |enemies|
        ensures enemies[k] in E
      {
        assert enemies[k] in old(enemies);
        var j :| 0 <= j < |old(enemies)| && old(enemies)[j] == enemies[k];
      }
    }

    /** The splice of update's bomb loop: the bomb at position `i`, just
        updated, leaves the list when its explosion has finished. */
    method RemoveIfFinished(ghost B: seq<Bomb>, ghost T0: seq<real>, ghost X0: seq<bool>, ghost E: seq<Enemy>, deltaTime: real, i: int)
      requires 0 <= i < |B| && Sound() && Distinct(B)
      requires bombs == B[..i + 1] + Unfinished(B[i + 1..])
      requires (forall k :: 0 <= k < |enemies| ==> enemies[k] in E) && Burnt(B, T0, X0, deltaTime, i - 1)
      modifies this`bombs
      ensures BombLoop(B, T0, X0, E, deltaTime, i - 1)
    {
      var bomb := bombs[i];
      UnfinishedStep(B, i);
      Splice(B, i, Unfinished(B[i + 1..]), !bomb.finished);
      ghost var next := B[..i] + Unfinished(B[i..]);
      if bomb.finished {
        DropBomb(i);
      }
      assert bombs == next;
    }

    /** splice(i, 1) on the bomb list. */
    method DropBomb(i: int)
      requires Sound() && 0 <= i < |bombs|
      modifies this`bombs
      ensures Sound() && bombs == old(bombs[..i] + bombs[i + 1..])
    {
      OwnedSplice(bombs, i, player);
      bombs := bombs[..i] + bombs[i + 1..];
    }

    /** bomb.update, with what the loop needs of it: the fuse and the
        explosion flag, and an enemy list that only loses enemies. */
    method TickBomb(bomb: Bomb, deltaTime: real)
      requires Sound() && (bomb.owner == null || bomb.owner == player)
      modifies this`grid, this`powerups, this`enemies, this`score, this`pending
      modifies player`lives, player`isInvincible, player`invincibilityTimer, player`bombCount
      modifies enemies`lives, enemies`isInvincible, enemies`invincibilityTimer
      modifies bomb`timer, bomb`exploded, bomb`explosionTimer, bomb`explosionTiles, bomb`finished
      ensures Sound() && Fuse(bomb, old(bomb.timer), old(bomb.exploded), deltaTime, true)
      ensures forall e :: e in enemies ==> e in old(enemies)
    {
      bomb.Update(deltaTime, this);
      forall e | e in enemies
        ensures e in old(enemies)
      {
        if !old(bomb.exploded) && bomb.exploded {
          AliveExactly(old(enemies), e);
        }
      }
    }

    /** One setTimeout callback of a chain reaction: the oldest queued bomb
        is taken off the queue and explodes, which does nothing when it
        already has. */
    method FireTimeout()
      requires Sound() && pending != []
      modifies this`grid, this`powerups, this`enemies, this`score, this`pending
      modifies enemies`lives, enemies`isInvincible, enemies`invincibilityTimer
      modifies player`lives, player`isInvincible, player`invincibilityTimer, player`bombCount
      modifies {pending[0]}`exploded, {pending[0]}`explosionTimer, {pending[0]}`explosionTiles
      ensures Sound()
      ensures old(pending[0].exploded) ==>
        pending == old(pending)[1..] && grid == old(grid) && powerups == old(powerups) &&
        enemies == old(enemies) && score == old(score) && unchanged(player) && unchanged(old(enemies))
      ensures !old(pending[0].exploded) ==>
        old(pending[0]).exploded &&
        old(pending[0]).Exploded(this, old(grid), old(powerups), old(Snapshot()), old(pending)[1..]) &&
        player.bombCount == old(player.bombCount) + (if old(pending[0]).owner != null then 1 else 0)
    {
      ghost var b := Snapshot();
      var bomb := PopPending();
      assert Snapshot() == b;
      bomb.Explode(this);
    }

    /** Takes the oldest queued bomb off the queue. */
    method PopPending() returns (bomb: Bomb)
      requires Sound() && pending != []
      modifies this`pending
      ensures Sound() && bomb == old(pending[0]) && pending == old(pending[1..])
      ensures bomb.owner == null || bomb.owner == player
    {
      bomb := pending[0];
      pending := pending[1..];
    }

    /** The Space key handler of js/script.js: Player.placeBomb, then
        Level.addBomb when it handed out a bomb.  The bomb sits on the
        player's cell (Math.round), with the player's range and owner. */
    method PlaceBomb() returns (bomb: Bomb?)
      requires Valid()
      modifies this`bombs, player`bombCount
      ensures Valid()
      ensures InBounds(player.Here().x, player.Here().y)
      ensures bomb != null <==>
        old(player.bombCount) > 0 && old(ActiveBombs(bombs)) < player.maxBombs && TileAt(grid, player.Here()) == FLOOR
      ensures bomb == null ==> bombs == old(bombs) && player.bombCount == old(player.bombCount)
      ensures bomb != null ==>
        fresh(bomb) && bombs == old(bombs) + [bomb] && player.bombCount == old(player.bombCount) - 1 &&
        bomb.x == Pixel(player.Here().x) && bomb.y == Pixel(player.Here().y) && bomb.Centre() == player.Here() &&
        bomb.power == player.bombRange && bomb.owner == player && !bomb.exploded && bomb.timer == FUSE_MS
    {
      var spec := player.PlaceBomb(grid, ActiveBombs(bombs));
      bomb := null;
      if spec.Some? {
        bomb := new Bomb(spec.value.x, spec.value.y, spec.value.power, player);
        CellIndexOfPixel(player.Here().x);
        CellIndexOfPixel(player.Here().y);
        AddBomb(bomb);
      }
    }

    /** Placing a bomb and letting it explode leaves the player's stock as
        it was: placing takes a bomb, the explosion gives it back. */
    method PlaceAndExplode() returns (bomb: Bomb?)
      requires Valid()
      modifies this`grid, this`powerups, this`enemies, this`score, this`pending, this`bombs
      modifies enemies`lives, enemies`isInvincible, enemies`invincibilityTimer
      modifies player`lives, player`isInvincible, player`invincibilityTimer, player`bombCount
      ensures player.bombCount == old(player.bombCount)
      ensures bomb != null ==> bomb.exploded
    {
      bomb := PlaceBomb();
      if bomb != null {
        bomb.Explode(this);
      }
    }
  }
}