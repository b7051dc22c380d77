/** The value-level rules behind the root script.js's explodeBomb and
    update: the duplicate check on explosion markers, the blocks a blast
    clears, the enemies it kills, and the markers and bombs a frame keeps. */
module ScriptRules {
  import opened ScriptMap
  import opened ScriptEntities

  /** Each element of `s` listed once. */
  predicate Distinct<T(==)>(s: seq<T>) {
    forall i, j :: 0 <= i < j < |s| ==> s[i] != s[j]
  }

  /** gameState.explosions.some(exp => exp.gridX === x && exp.gridY === y) */
  predicate Exploding(es: seq<Explosion>, x: int, y: int) {
    exists k :: 0 <= k < |es| && es[k].gridX == x && es[k].gridY == y
  }

  /** gameState.bombs.some(bomb => bomb.gridX === x && bomb.gridY === y) */
  predicate BombExists(bs: seq<Bomb>, x: int, y: int) {
    exists k :: 0 <= k < |bs| && bs[k].gridX == x && bs[k].gridY == y
  }

  // ---------------------------------------------------------------------------
  // Explosion markers
  // ---------------------------------------------------------------------------

  /** How many markers of `es` sit on `c`; there is one exactly when the
      tile counts as exploding. */
  function Count(es: seq<Explosion>, c: Coord): (r: nat)
    ensures r > 0 <==> Exploding(es, c.x, c.y)
  {
    if es == [] then 0
    else
      var pre := es[..|es| - 1];
      var last := es[|es| - 1];
      assert forall k :: 0 <= k < |pre| ==> pre[k] == es[k];
      assert Exploding(es, c.x, c.y) <==> Exploding(pre, c.x, c.y) || (last.gridX == c.x && last.gridY == c.y);
      Count(pre, c) + (if last.gridX == c.x && last.gridY == c.y then 1 else 0)
  }

  /** The markers after explodeBomb's per-tile duplicate check for each tile
      of `ts` in turn: a tile that is not yet exploding gets a new marker. */
  function AddMarkers(es: seq<Explosion>, ts: seq<Coord>, now: int): (r: seq<Explosion>)
    ensures |es| <= |r| <= |es| + |ts| && r[..|es|] == es
  {
    if ts == [] then es
    else
      var e := AddMarkers(es, ts[..|ts| - 1], now);
      var t := ts[|ts| - 1];
      if Exploding(e, t.x, t.y) then e else e + [CreateExplosion(t.x, t.y, now)]
  }

  /** No tile ends up with a duplicate marker from the blast: a tile of
      `ts` keeps its markers when it had some, and has exactly one when it
      had none; every other tile keeps its markers. */
  lemma {:induction false} MarkerCount(es: seq<Explosion>, ts: seq<Coord>, now: int, c: Coord)
    ensures Count(AddMarkers(es, ts, now), c) == if Count(es, c) > 0 || c !in ts then Count(es, c) else 1
  {
    if ts != [] {
      var pre := ts[..|ts| - 1];
      var t := ts[|ts| - 1];
      MarkerCount(es, pre, now, c);
      var e := AddMarkers(es, pre, now);
      assert c in ts <==> c in pre || c == t;
      if !Exploding(e, t.x, t.y) {
        var e' := e + [CreateExplosion(t.x, t.y, now)];
        assert e'[..|e'| - 1] == e;
      }
    }
  }

  // ---------------------------------------------------------------------------
  // Blocks
  // ---------------------------------------------------------------------------

  /** The map after explodeBomb's per-tile block check for each tile of
      `ts` in turn. */
  function Cleared(m: Map, ts: seq<Coord>): (r: Map)
    requires Shaped(m) && forall k :: 0 <= k < |ts| ==> InBounds(ts[k].x, ts[k].y)
    ensures Shaped(r)
  {
    if ts == [] then m
    else
      var c := Cleared(m, ts[..|ts| - 1]);
      var t := ts[|ts| - 1];
      assert InBounds(t.x, t.y);
      if c[t.y][t.x] == TILE_DESTRUCTIBLE then c[t.y := c[t.y][t.x := TILE_EMPTY]] else c
  }

  /** A destructible tile among `ts` becomes empty; nothing else changes. */
  lemma {:induction false} ClearedExactly(m: Map, ts: seq<Coord>)
    requires Shaped(m) && forall k :: 0 <= k < |ts| ==> InBounds(ts[k].x, ts[k].y)
    ensures forall y, x :: InBounds(x, y) ==>
      Cleared(m, ts)[y][x] == if Coord(x, y) in ts && m[y][x] == TILE_DESTRUCTIBLE then TILE_EMPTY else m[y][x]
  {
    if ts != [] {
      var pre := ts[..|ts| - 1];
      ClearedExactly(m, pre);
      assert forall y, x :: InBounds(x, y) ==> (Coord(x, y) in ts <==> Coord(x, y) in pre || Coord(x, y) == ts[|ts| - 1]);
    }
  }

  // ---------------------------------------------------------------------------
  // Enemies
  // ---------------------------------------------------------------------------

  /** What explodeBomb reads of an enemy. */
  datatype View = View(gridX: int, gridY: int, alive: bool) {
    function Cell(): Coord { Coord(gridX, gridY) }
  }

  /** The living enemies of `vs` standing on a tile of `ts`: the ones a blast
      over `ts` kills. */
  function Kills(vs: seq<View>, ts: seq<Coord>): (r: nat)
    ensures r <= |vs| && (ts == [] ==> r == 0)
  {
    if vs == [] then 0
    else Kills(vs[..|vs| - 1], ts) + (if vs[|vs| - 1].alive && vs[|vs| - 1].Cell() in ts then 1 else 0)
  }

  /** The enemies of `vs` still alive and off `ts` that stand on `t`. */
  function Hits(vs: seq<View>, ts: seq<Coord>, t: Coord): nat {
    if vs == [] then 0
    else
      var v := vs[|vs| - 1];
      Hits(vs[..|vs| - 1], ts, t) + (if v.alive && v.Cell() !in ts && v.Cell() == t then 1 else 0)
  }

  /** Going through the tiles one at a time: the kills of `ts + [t]` are
      those of `ts` plus the enemies the tile `t` catches still alive. */
  lemma {:induction false} KillsStep(vs: seq<View>, ts: seq<Coord>, t: Coord)
    ensures Kills(vs, ts + [t]) == Kills(vs, ts) + Hits(vs, ts, t)
  {
    if vs != [] {
      KillsStep(vs[..|vs| - 1], ts, t);
      var c := vs[|vs| - 1].Cell();
      assert c in ts + [t] <==> c in ts || c == t;
    }
  }

  /** The enemies of `vs` after a blast over `ts`. */
  function Struck(vs: seq<View>, ts: seq<Coord>): (r: seq<View>)
    ensures |r| == |vs|
    ensures forall k :: 0 <= k < |vs| ==> r[k] == vs[k].(alive := vs[k].alive && vs[k].Cell() !in ts)
  {
    if vs == [] then [] else Struck(vs[..|vs| - 1], ts) + [var v := vs[|vs| - 1]; v.(alive := v.alive && v.Cell() !in ts)]
  }

  /** How many enemies of `vs` are alive. */
  function Living(vs: seq<View>): nat {
    if vs == [] then 0 else Living(vs[..|vs| - 1]) + (if vs[|vs| - 1].alive then 1 else 0)
  }

  /** The kills of a blast are exactly the enemies it turns from alive to
      dead, so the 100 points per kill are paid once per enemy that dies. */
  lemma {:induction false} KillsAreDeaths(vs: seq<View>, ts: seq<Coord>)
    ensures Living(Struck(vs, ts)) + Kills(vs, ts) == Living(vs)
  {
    if vs != [] {
      var pre := vs[..|vs| - 1];
      KillsAreDeaths(pre, ts);
      assert Struck(vs, ts)[..|vs| - 1] == Struck(pre, ts);
    }
  }

  // ---------------------------------------------------------------------------
  // Explosion lifetime
  // ---------------------------------------------------------------------------

  /** The markers update's backward splice loop keeps: the ones not yet
      expired at `now`, in their order. */
  function Live(es: seq<Explosion>, now: int): seq<Explosion> {
    if es == [] then [] else (if es[0].Expired(now) then [] else [es[0]]) + Live(es[1..], now)
  }

  /** Live keeps a marker exactly when it is in the list and not expired. */
  lemma {:induction false} LiveExactly(es: seq<Explosion>, now: int, e: Explosion)
    ensures e in Live(es, now) <==> e in es && !e.Expired(now)
    ensures |Live(es, now)| <= |es|
  {
    if es != [] {
      LiveExactly(es[1..], now, e);
      assert es == [es[0]] + es[1..];
    }
  }

  /** One step of the backward loop: Live over es[i..] is the verdict on
      es[i] followed by Live over es[i + 1..]. */
  lemma LiveStep(es: seq<Explosion>, now: int, i: int)
    requires 0 <= i < |es|
    ensures Live(es[i..], now) == (if es[i].Expired(now) then [] else [es[i]]) + Live(es[i + 1..], now)
  {
    assert es[i..][1..] == es[i + 1..];
  }

  // ---------------------------------------------------------------------------
  // Spent bombs (the removal explodeBomb announces)
  // ---------------------------------------------------------------------------

  /** The bombs a backward splice loop over `bs` keeps when it removes the
      spent ones: the unspent bombs, in their order. */
  function Unspent(bs: seq<Bomb>, now: int): seq<Bomb>
    reads bs`exploded
  {
    if bs == [] then [] else (if bs[0].Spent(now) then [] else [bs[0]]) + Unspent(bs[1..], now)
  }

  /** Unspent keeps a bomb exactly when it is in the list and not spent,
      and keeps a list of distinct bombs distinct. */
  lemma {:induction false} UnspentExactly(bs: seq<Bomb>, now: int)
    ensures forall b :: b in Unspent(bs, now) <==> b in bs && !b.Spent(now)
    ensures |Unspent(bs, now)| <= |bs|
    ensures Distinct(bs) ==> Distinct(Unspent(bs, now))
  {
    if bs != [] {
      var rest := Unspent(bs[1..], now);
      UnspentExactly(bs[1..], now);
      assert bs == [bs[0]] + bs[1..];
      assert forall b :: b in bs <==> b == bs[0] || b in bs[1..];
      if Distinct(bs) {
        assert bs[0] !in bs[1..];
        assert Distinct(bs[1..]) by {
          forall i, j | 0 <= i < j < |bs[1..]| ensures bs[1..][i] != bs[1..][j] {
            assert bs[1..][i] == bs[i + 1] && bs[1..][j] == bs[j + 1];
          }
        }
        if !bs[0].Spent(now) {
          var r := [bs[0]] + rest;
          forall i, j | 0 <= i < j < |r| ensures r[i] != r[j] {
            if i == 0 {
              assert r[j] == rest[j - 1] && r[j] in rest;
            } else {
              assert r[i] == rest[i - 1] && r[j] == rest[j - 1];
            }
          }
        }
      }
    }
  }

  /** After the spent bombs go, the bomb guard finds a bomb on a cell
      exactly when some unspent bomb of the list is there. */
  lemma UnspentFrees(bs: seq<Bomb>, now: int, x: int, y: int)
    ensures BombExists(Unspent(bs, now), x, y) <==>
      exists k :: 0 <= k < |bs| && bs[k].gridX == x && bs[k].gridY == y && !bs[k].Spent(now)
  {
    var u := Unspent(bs, now);
    UnspentExactly(bs, now);
    if BombExists(u, x, y) {
      var k :| 0 <= k < |u| && u[k].gridX == x && u[k].gridY == y;
      assert u[k] in bs;
      var j :| 0 <= j < |bs| && bs[j] == u[k];
    }
    if exists k :: 0 <= k < |bs| && bs[k].gridX == x && bs[k].gridY == y && !bs[k].Spent(now) {
      var k :| 0 <= k < |bs| && bs[k].gridX == x && bs[k].gridY == y && !bs[k].Spent(now);
      assert bs[k] in u;
      var j :| 0 <= j < |u| && u[j] == bs[k];
    }
  }

  /** One step of the backward loop: Unspent over bs[i..] is the verdict on
      bs[i] followed by Unspent over bs[i + 1..]. */
  lemma UnspentStep(bs: seq<Bomb>, now: int, i: int)
    requires 0 <= i < |bs|
    ensures Unspent(bs[i..], now) == (if bs[i].Spent(now) then [] else [bs[i]]) + Unspent(bs[i + 1..], now)
  {
    assert bs[i..][1..] == bs[i + 1..];
  }
}
