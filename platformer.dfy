/** The game loop of the main package: a player moving among static solid tiles.

    The package keeps its state in globals (`player`, `tiles`, `jumpPressed`, `game`); here
    they are the fields of one `Game` object and the `Player` object it owns. Each per-tick
    method is proved against a pure function of the state it reads, and the properties of
    the tick are lemmas about those functions. Keyboard polling is replaced by boolean
    inputs. */
module Platformer {
  import opened Rectangle
  import Jump

  const TileHeight: int := 30
  const TileWidth: int := 30
  const ScreenWidth: int := 320

  // ---------------------------------------------------------------- tiles

  /** The top-left corner of a solid tile. */
  datatype Tile = Tile(x: real, y: real) {
    /** The tile's `tileWidth` x `tileHeight` box. */
    function Box(): (r: Rect)
      ensures r.min == Point(x, y) && r.Valid()
      ensures r.Width() == TileWidth as real && r.Height() == TileHeight as real
    {
      Make(x, y, x + TileWidth as real, y + TileHeight as real)
    }
  }

  /** The tile `loadTiles` makes for a solid cell in row `row`, column `col`. */
  function TileAt(row: int, col: int): Tile {
    Tile((TileWidth * col) as real, (TileHeight * row) as real)
  }

  predicate Solid(tileMap: seq<string>, row: int, col: int) {
    0 <= row < |tileMap| && 0 <= col < |tileMap[row]| && tileMap[row][col] == 'x'
  }

  /** The tiles of the first `n` characters of row `row`, left to right. */
  function RowTiles(s: string, row: int, n: nat): seq<Tile>
    requires n <= |s|
  {
    if n == 0 then []
    else RowTiles(s, row, n - 1) + (if s[n - 1] == 'x' then [TileAt(row, n - 1)] else [])
  }

  /** The tiles of the first `n` rows of the map, top to bottom. */
  function MapTiles(tileMap: seq<string>, n: nat): seq<Tile>
    requires n <= |tileMap|
  {
    if n == 0 then []
    else MapTiles(tileMap, n - 1) + RowTiles(tileMap[n - 1], n - 1, |tileMap[n - 1]|)
  }

  /** Row-major order: higher rows first, then left to right. */
  predicate Before(a: Tile, b: Tile) {
    a.y < b.y || (a.y == b.y && a.x < b.x)
  }

  predicate RowMajor(ts: seq<Tile>) {
    forall i, j :: 0 <= i < j < |ts| ==> Before(ts[i], ts[j])
  }

  lemma RowMajorAppend(a: seq<Tile>, b: seq<Tile>)
    requires RowMajor(a) && RowMajor(b)
    requires forall i, j :: 0 <= i < |a| && 0 <= j < |b| ==> Before(a[i], b[j])
    ensures RowMajor(a + b)
  {
    forall i, j | 0 <= i < j < |a + b|
      ensures Before((a + b)[i], (a + b)[j])
    {
      if j < |a| {
        assert (a + b)[i] == a[i] && (a + b)[j] == a[j];
      } else if i < |a| {
        assert (a + b)[i] == a[i] && (a + b)[j] == b[j - |a|];
      } else {
        assert (a + b)[i] == b[i - |a|] && (a + b)[j] == b[j - |a|];
      }
    }
  }

  /** A row's tiles are exactly its solid cells, left to right, all on that row. */
  lemma {:induction false} RowTilesSpec(s: string, row: nat, n: nat)
    requires n <= |s|
    ensures RowMajor(RowTiles(s, row, n))
    ensures forall t :: t in RowTiles(s, row, n) ==>
              t.y == (TileHeight * row) as real &&
              exists c :: 0 <= c < n && s[c] == 'x' && t == TileAt(row, c)
    ensures forall c :: 0 <= c < n && s[c] == 'x' ==> TileAt(row, c) in RowTiles(s, row, n)
  {
    if n > 0 {
      RowTilesSpec(s, row, n - 1);
      var prev := RowTiles(s, row, n - 1);
      var last: seq<Tile> := if s[n - 1] == 'x' then [TileAt(row, n - 1)] else [];
      forall i, j | 0 <= i < |prev| && 0 <= j < |last|
        ensures Before(prev[i], last[j])
      {
        assert prev[i] in prev;
        var c :| 0 <= c < n - 1 && s[c] == 'x' && prev[i] == TileAt(row, c);
        assert TileWidth * c < TileWidth * (n - 1);
      }
      RowMajorAppend(prev, last);
    }
  }

  /** The map's tiles are exactly its solid cells, in row-major order. */
  lemma {:induction false} MapTilesSpec(tileMap: seq<string>, n: nat)
    requires n <= |tileMap|
    ensures RowMajor(MapTiles(tileMap, n))
    ensures forall t :: t in MapTiles(tileMap, n) ==>
              t.y < (TileHeight * n) as real &&
              exists r, c :: 0 <= r < n && Solid(tileMap, r, c) && t == TileAt(r, c)
    ensures forall r, c :: 0 <= r < n && Solid(tileMap, r, c) ==> TileAt(r, c) in MapTiles(tileMap, n)
  {
    if n > 0 {
      MapTilesSpec(tileMap, n - 1);
      var s := tileMap[n - 1];
      RowTilesSpec(s, n - 1, |s|);
      var prev := MapTiles(tileMap, n - 1);
      var row := RowTiles(s, n - 1, |s|);
      forall i, j | 0 <= i < |prev| && 0 <= j < |row|
        ensures Before(prev[i], row[j])
      {
        assert prev[i] in prev && row[j] in row;
      }
      RowMajorAppend(prev, row);
      forall t | t in MapTiles(tileMap, n)
        ensures t.y < (TileHeight * n) as real
        ensures exists r, c :: 0 <= r < n && Solid(tileMap, r, c) && t == TileAt(r, c)
      {
        if t in row {
          var c :| 0 <= c < |s| && s[c] == 'x' && t == TileAt(n - 1, c);
          assert Solid(tileMap, n - 1, c);
        }
      }
    }
  }

  /** What `loadTiles` appends for a map. */
  function Tiles(tileMap: seq<string>): seq<Tile> {
    MapTiles(tileMap, |tileMap|)
  }

  /** `loadTiles` makes one tile per solid cell, at the cell's pixel position, in row-major
      order, and nothing for any other character. */
  lemma TilesSpec(tileMap: seq<string>)
    ensures RowMajor(Tiles(tileMap))
    ensures forall t :: t in Tiles(tileMap) <==>
              exists r, c :: Solid(tileMap, r, c) && t == TileAt(r, c)
  {
    MapTilesSpec(tileMap, |tileMap|);
  }

  /** Row-major order has no repeats, so each solid cell gives exactly one tile. */
  lemma RowMajorDistinct(ts: seq<Tile>, i: int, j: int)
    requires RowMajor(ts) && 0 <= i < |ts| && 0 <= j < |ts| && i != j
    ensures ts[i] != ts[j]
  {
    if i < j {
      assert Before(ts[i], ts[j]);
    } else {
      assert Before(ts[j], ts[i]);
    }
  }

  // ---------------------------------------------------------------- the player's geometry

  datatype Margins = Margins(top: real, left: real, bottom: real, right: real)

  /** The collision box: the visual rectangle shrunk by the four margins. */
  function HitboxOf(r: Rect, m: Margins): (hb: Rect)
    ensures hb.Width() == r.Width() - m.left - m.right
    ensures hb.Height() == r.Height() - m.top - m.bottom
    ensures m.left >= 0.0 && m.top >= 0.0 && m.right >= 0.0 && m.bottom >= 0.0 ==>
              r.min.x <= hb.min.x && hb.max.x <= r.max.x && r.min.y <= hb.min.y && hb.max.y <= r.max.y
  {
    Make(r.min.x + m.left, r.min.y + m.top, r.max.x - m.right, r.max.y - m.bottom)
  }

  /** `Player.SetLeft`: puts the hitbox's left edge at `x`. */
  function PlaceLeft(r: Rect, m: Margins, x: real): (p: Rect)
    ensures HitboxOf(p, m).min.x == x && p.Width() == r.Width()
    ensures p.min.y == r.min.y && p.max.y == r.max.y
  {
    r.SetLeft(x - m.left)
  }

  /** `Player.SetRight`: puts the hitbox's right edge at `x`. */
  function PlaceRight(r: Rect, m: Margins, x: real): (p: Rect)
    ensures HitboxOf(p, m).max.x == x && p.Width() == r.Width()
    ensures p.min.y == r.min.y && p.max.y == r.max.y
  {
    r.SetRight(x + m.right)
  }

  /** `Player.SetTop`: puts the hitbox's top edge at `y`. */
  function PlaceTop(r: Rect, m: Margins, y: real): (p: Rect)
    ensures HitboxOf(p, m).min.y == y && p.Height() == r.Height()
    ensures p.min.x == r.min.x && p.max.x == r.max.x
  {
    r.SetTop(y - m.top)
  }

  /** `Player.SetBottom`: puts the hitbox's bottom edge at `y`. */
  function PlaceBottom(r: Rect, m: Margins, y: real): (p: Rect)
    ensures HitboxOf(p, m).max.y == y && p.Height() == r.Height()
    ensures p.min.x == r.min.x && p.max.x == r.max.x
  {
    r.SetBottom(y + m.bottom)
  }

  /** Only the last left placement matters. */
  lemma PlaceLeftTwice(r: Rect, m: Margins, a: real, b: real)
    ensures PlaceLeft(PlaceLeft(r, m, a), m, b) == PlaceLeft(r, m, b)
  {
  }

  // ---------------------------------------------------------------- one tick, as functions

  /** The tunables of the player record, which the tick reads and never writes. */
  datatype Config = Config(friction: real, acceleration: real, maxVX: real,
                           terminalVelocityY: real, jumpSpeed: real, jumpHoverSpeed: real,
                           scalingFactor: real, margins: Margins)

  /** The keys the tick reads: right, left, and jump (space or up arrow). */
  datatype Keys = Keys(left: bool, right: bool, jump: bool)

  /** The player state the tick changes. */
  datatype Body = Body(rect: Rect, vX: real, vY: real, isOnFloor: bool, isJumping: bool,
                       scaling: real)

  /** The tick's whole state: the player and the jump key latch. */
  datatype World = World(body: Body, jumpPressed: bool)

  /** The tile supports the hitbox: their horizontal spans meet (touching counts) and the
      hitbox bottom is exactly on the tile top. */
  predicate Supports(hb: Rect, t: Tile) {
    hb.max.x >= t.x && hb.min.x <= t.x + TileWidth as real && hb.max.y == t.y
  }

  predicate OnFloor(hb: Rect, ts: seq<Tile>) {
    exists i :: 0 <= i < |ts| && Supports(hb, ts[i])
  }

  /** The velocity change the arrow keys ask for: the right key wins over the left. */
  function Push(left: bool, right: bool, acceleration: real): real {
    if right then acceleration else if left then -acceleration else 0.0
  }

  /** Friction applies unless the push is along the current motion. */
  function Slowed(vX: real, dVX: real, friction: real): real {
    if dVX * vX <= 0.0 then vX * (1.0 - friction) else vX
  }

  function Clamp(v: real, bound: real): real {
    if v > bound then bound else if v < -bound then -bound else v
  }

  /** The horizontal half of `handleInput`: friction, then the push, then the clamp. */
  function Accelerate(vX: real, left: bool, right: bool, c: Config): (v: real)
    ensures c.maxVX >= 0.0 ==> -c.maxVX <= v <= c.maxVX
  {
    var dVX := Push(left, right, c.acceleration);
    Clamp(Slowed(vX, dVX, c.friction) + dVX, c.maxVX)
  }

  /** With a non-zero friction and a moving player, friction changes the speed exactly when
      the push is not along the current motion (`dVX * vX <= 0`). */
  lemma FrictionExactlyWhenNotPushingAlong(vX: real, dVX: real, friction: real)
    requires friction != 0.0 && vX != 0.0
    ensures Slowed(vX, dVX, friction) != vX <==> dVX * vX <= 0.0
  {
    if dVX * vX <= 0.0 {
      assert vX * (1.0 - friction) - vX == -(vX * friction);
      assert vX * friction != 0.0;
    }
  }

  /** With no key held and a friction in [0, 1], the speed decays and keeps its sign. */
  lemma CoastingDecays(vX: real, c: Config)
    requires 0.0 <= c.friction <= 1.0 && -c.maxVX <= vX <= c.maxVX
    ensures var v := Accelerate(vX, false, false, c);
            v == vX * (1.0 - c.friction) &&
            (vX >= 0.0 ==> 0.0 <= v <= vX) && (vX <= 0.0 ==> vX <= v <= 0.0)
  {
    var k := 1.0 - c.friction;
    assert 0.0 <= k <= 1.0;
    if vX >= 0.0 {
      assert 0.0 <= vX * k <= vX * 1.0;
    } else {
      assert vX * 1.0 <= vX * k <= 0.0;
    }
  }

  /** Accelerating along the current motion skips friction. */
  lemma PushingAlongSkipsFriction(vX: real, c: Config)
    requires c.acceleration > 0.0 && vX > 0.0 && c.maxVX >= 0.0
    ensures Accelerate(vX, false, true, c) ==
              if vX + c.acceleration > c.maxVX then c.maxVX else vX + c.acceleration
    ensures Accelerate(-vX, true, false, c) ==
              if -vX - c.acceleration < -c.maxVX then -c.maxVX else -vX - c.acceleration
  {
    assert c.acceleration * vX > 0.0;
  }

  /** Pushing against the current motion applies friction and acceleration in one tick. */
  lemma ReversingAppliesFriction(vX: real, c: Config)
    requires c.acceleration > 0.0 && vX < 0.0
    ensures var v := vX * (1.0 - c.friction) + c.acceleration;
            Accelerate(vX, false, true, c) ==
              if v > c.maxVX then c.maxVX else if v < -c.maxVX then -c.maxVX else v
  {
    assert c.acceleration * vX < 0.0;
  }

  /** The right key hides the left key. */
  lemma RightWinsOverLeft(vX: real, c: Config)
    ensures Accelerate(vX, true, true, c) == Accelerate(vX, false, true, c)
  {
  }

  /** `applyGravity`: nothing on the floor; otherwise gravity capped at terminal velocity. */
  function Gravity(vY: real, onFloor: bool, gravity: real, terminal: real): (v: real)
    ensures onFloor ==> v == vY
    ensures !onFloor ==> v <= terminal && (v == vY + gravity || v == terminal)
    ensures !onFloor ==> v == (if vY + gravity < terminal then vY + gravity else terminal)
  {
    if onFloor then vY
    else
      var v := vY + gravity;
      if v > terminal then terminal else v
  }

  /** The part of the player `handleXCollisions` changes. */
  datatype XState = XState(rect: Rect, vX: real)

  /** One tile of `handleXCollisions`. The overlap test uses the hitbox taken before the loop,
      `hb`, not the moving player. */
  function XTile(hb: Rect, t: Tile, s: XState, m: Margins): (r: XState)
    ensures r.rect.Width() == s.rect.Width()
    ensures r.rect.min.y == s.rect.min.y && r.rect.max.y == s.rect.max.y
  {
    if hb.Overlaps(t.Box()) then
      if s.vX > 0.0 then XState(PlaceRight(s.rect, m, t.Box().min.x), 0.0)
      else if s.vX < 0.0 then XState(PlaceLeft(s.rect, m, t.Box().max.x), -0.01)
      else s
    else s
  }

  /** The tile loop of `handleXCollisions`, over the tiles in order. */
  function XScan(hb: Rect, ts: seq<Tile>, s: XState, m: Margins): (r: XState)
    ensures r.rect.Width() == s.rect.Width()
    ensures r.rect.min.y == s.rect.min.y && r.rect.max.y == s.rect.max.y
  {
    if ts == [] then s else XTile(hb, ts[|ts| - 1], XScan(hb, ts[..|ts| - 1], s, m), m)
  }

  /** The screen-edge step of `handleXCollisions`: bounce off the right or the left edge. */
  function ScreenClamp(s: XState): (r: XState)
    ensures s.rect.max.x > ScreenWidth as real ==>
              r.rect.max.x == ScreenWidth as real && r.vX == -s.vX
    ensures s.rect.max.x <= ScreenWidth as real && s.rect.min.x < 0.0 ==>
              r.rect.min.x == 0.0 && r.vX == -s.vX
    ensures s.rect.max.x <= ScreenWidth as real && s.rect.min.x >= 0.0 ==> r == s
    ensures r.rect.Width() == s.rect.Width() && r.rect.min.y == s.rect.min.y && r.rect.max.y == s.rect.max.y
  {
    if s.rect.max.x > ScreenWidth as real then XState(s.rect.SetRight(ScreenWidth as real), s.vX * -1.0)
    else if s.rect.min.x < 0.0 then XState(s.rect.SetLeft(0.0), s.vX * -1.0)
    else s
  }

  /** All of `handleXCollisions`. */
  function XResolve(ts: seq<Tile>, s: XState, m: Margins): (r: XState)
    ensures r.rect.Width() == s.rect.Width()
    ensures r.rect.min.y == s.rect.min.y && r.rect.max.y == s.rect.max.y
  {
    ScreenClamp(XScan(HitboxOf(s.rect, m), ts, s, m))
  }

  lemma {:induction false} XScanAppend(hb: Rect, a: seq<Tile>, b: seq<Tile>, s: XState, m: Margins)
    ensures XScan(hb, a + b, s, m) == XScan(hb, b, XScan(hb, a, s, m), m)
  {
    if b != [] {
      assert (a + b)[..|a + b| - 1] == a + b[..|b| - 1];
      XScanAppend(hb, a, b[..|b| - 1], s, m);
    } else {
      assert a + b == a;
    }
  }

  /** Tiles the stale hitbox does not overlap change nothing, and neither does any tile
      once the velocity is 0. */
  lemma {:induction false} XScanIdle(hb: Rect, ts: seq<Tile>, s: XState, m: Margins)
    requires s.vX == 0.0 || forall i :: 0 <= i < |ts| ==> !hb.Overlaps(ts[i].Box())
    ensures XScan(hb, ts, s, m) == s
  {
    if ts != [] {
      XScanIdle(hb, ts[..|ts| - 1], s, m);
    }
  }

  /** Moving right, only the first overlapping tile acts: it stops the player against its
      left side and zeroes the velocity, so no later tile snaps again. */
  lemma RightSnapAtMostOnce(hb: Rect, ts: seq<Tile>, s: XState, m: Margins, k: nat)
    requires s.vX > 0.0 && k < |ts| && hb.Overlaps(ts[k].Box())
    requires forall i :: 0 <= i < k ==> !hb.Overlaps(ts[i].Box())
    ensures XScan(hb, ts, s, m) == XState(PlaceRight(s.rect, m, ts[k].x), 0.0)
    ensures HitboxOf(XScan(hb, ts, s, m).rect, m).max.x == ts[k].x
  {
    assert ts == ts[..k] + [ts[k]] + ts[k + 1..];
    XScanAppend(hb, ts[..k] + [ts[k]], ts[k + 1..], s, m);
    XScanAppend(hb, ts[..k], [ts[k]], s, m);
    XScanIdle(hb, ts[..k], s, m);
    assert XScan(hb, [ts[k]], s, m) == XTile(hb, ts[k], XScan(hb, [], s, m), m);
    XScanIdle(hb, ts[k + 1..], XState(PlaceRight(s.rect, m, ts[k].x), 0.0), m);
  }

  /** Moving left, every overlapping tile sets the velocity to -0.01, so each one snaps the
      player to its right side: the last overlapping tile decides where the player ends. */
  lemma {:induction false} LeftSnapLastWins(hb: Rect, ts: seq<Tile>, s: XState, m: Margins, k: nat)
    requires s.vX < 0.0 && k < |ts| && hb.Overlaps(ts[k].Box())
    requires forall i :: k < i < |ts| ==> !hb.Overlaps(ts[i].Box())
    ensures XScan(hb, ts, s, m) == XState(PlaceLeft(s.rect, m, ts[k].x + TileWidth as real), -0.01)
    ensures HitboxOf(XScan(hb, ts, s, m).rect, m).min.x == ts[k].x + TileWidth as real
  {
    var pre := ts[..|ts| - 1];
    if k == |ts| - 1 {
      var mid := XScan(hb, pre, s, m);
      XScanNegative(hb, pre, s, m);
      if mid.vX == s.vX {
        assert XScan(hb, ts, s, m) == XState(PlaceLeft(mid.rect, m, ts[k].x + TileWidth as real), -0.01);
      }
      PlaceLeftTwice(s.rect, m, ts[k].x + TileWidth as real, ts[k].x + TileWidth as real);
      XScanLeftShape(hb, pre, s, m);
    } else {
      LeftSnapLastWins(hb, pre, s, m, k);
      assert !hb.Overlaps(ts[|ts| - 1].Box());
    }
  }

  /** Moving left, the velocity stays negative through the loop. */
  lemma {:induction false} XScanNegative(hb: Rect, ts: seq<Tile>, s: XState, m: Margins)
    requires s.vX < 0.0
    ensures XScan(hb, ts, s, m).vX < 0.0
  {
    if ts != [] {
      XScanNegative(hb, ts[..|ts| - 1], s, m);
    }
  }

  /** Moving left, the loop only ever moves the rectangle by left placements. */
  lemma {:induction false} XScanLeftShape(hb: Rect, ts: seq<Tile>, s: XState, m: Margins)
    requires s.vX < 0.0
    ensures var r := XScan(hb, ts, s, m).rect;
            r == s.rect || exists x :: r == PlaceLeft(s.rect, m, x)
  {
    if ts != [] {
      XScanLeftShape(hb, ts[..|ts| - 1], s, m);
      var mid := XScan(hb, ts[..|ts| - 1], s, m);
      XScanNegative(hb, ts[..|ts| - 1], s, m);
      var t := ts[|ts| - 1];
      if hb.Overlaps(t.Box()) {
        if mid.rect != s.rect {
          var x :| mid.rect == PlaceLeft(s.rect, m, x);
          PlaceLeftTwice(s.rect, m, x, t.Box().max.x);
        }
      }
    }
  }

  /** The loop leaves the velocity as it was, or sets it to 0 or to -0.01. */
  lemma {:induction false} XScanVelocity(hb: Rect, ts: seq<Tile>, s: XState, m: Margins)
    ensures var v := XScan(hb, ts, s, m).vX;
            v == s.vX || v == 0.0 || v == -0.01
  {
    if ts != [] {
      XScanVelocity(hb, ts[..|ts| - 1], s, m);
    }
  }

  /** The part of the player `handleYCollisions` changes. */
  datatype YState = YState(rect: Rect, vY: real, scaling: real)

  /** One tile of `handleYCollisions`. The hitbox is taken afresh for every tile. Falling,
      the player lands on the tile; otherwise (rising or at rest) it is pushed below the
      tile and squashed. Either way the vertical velocity becomes 0. */
  function YTile(t: Tile, s: YState, m: Margins, factor: real): (r: YState)
    ensures r == s || r.vY == 0.0
  {
    if HitboxOf(s.rect, m).Overlaps(t.Box()) then
      if s.vY > 0.0 then YState(PlaceBottom(s.rect, m, t.Box().min.y), 0.0, s.scaling)
      else YState(PlaceTop(s.rect, m, t.Box().max.y).Scale(factor), 0.0, s.scaling * factor)
    else s
  }

  /** The tile loop of `handleYCollisions`, over the tiles in order. */
  function YScan(ts: seq<Tile>, s: YState, m: Margins, factor: real): YState {
    if ts == [] then s else YTile(ts[|ts| - 1], YScan(ts[..|ts| - 1], s, m, factor), m, factor)
  }

  lemma {:induction false} YScanAppend(a: seq<Tile>, b: seq<Tile>, s: YState, m: Margins, factor: real)
    ensures YScan(a + b, s, m, factor) == YScan(b, YScan(a, s, m, factor), m, factor)
  {
    if b != [] {
      assert (a + b)[..|a + b| - 1] == a + b[..|b| - 1];
      YScanAppend(a, b[..|b| - 1], s, m, factor);
    } else {
      assert a + b == a;
    }
  }

  /** Either no tile overlapped and nothing changed, or the vertical velocity ends at 0. */
  lemma {:induction false} YScanStops(ts: seq<Tile>, s: YState, m: Margins, factor: real)
    ensures YScan(ts, s, m, factor) == s || YScan(ts, s, m, factor).vY == 0.0
  {
    if ts != [] {
      YScanStops(ts[..|ts| - 1], s, m, factor);
    }
  }

  /** A player at rest stays at rest through the loop. */
  lemma {:induction false} YScanKeepsRest(ts: seq<Tile>, s: YState, m: Margins, factor: real)
    requires s.vY == 0.0
    ensures YScan(ts, s, m, factor).vY == 0.0
  {
    if ts != [] {
      YScanKeepsRest(ts[..|ts| - 1], s, m, factor);
    }
  }

  /** If the hitbox overlaps some tile when the loop reaches it, the vertical velocity is 0
      after the loop. */
  lemma OverlapStopsVertical(ts: seq<Tile>, s: YState, m: Margins, factor: real, k: nat)
    requires k < |ts|
    requires HitboxOf(YScan(ts[..k], s, m, factor).rect, m).Overlaps(ts[k].Box())
    ensures YScan(ts, s, m, factor).vY == 0.0
  {
    assert ts[..k + 1] == ts[..k] + [ts[k]];
    YScanAppend(ts[..k], [ts[k]], s, m, factor);
    assert YScan([ts[k]], YScan(ts[..k], s, m, factor), m, factor)
        == YTile(ts[k], YScan(ts[..k], s, m, factor), m, factor);
    assert ts == ts[..k + 1] + ts[k + 1..];
    YScanAppend(ts[..k + 1], ts[k + 1..], s, m, factor);
    YScanKeepsRest(ts[k + 1..], YScan(ts[..k + 1], s, m, factor), m, factor);
  }

  lemma {:induction false} YScanUntouched(ts: seq<Tile>, s: YState, m: Margins, factor: real)
    requires forall i :: 0 <= i < |ts| ==> !HitboxOf(s.rect, m).Overlaps(ts[i].Box())
    ensures YScan(ts, s, m, factor) == s
  {
    if ts != [] {
      YScanUntouched(ts[..|ts| - 1], s, m, factor);
    }
  }

  /** Falling, the first overlapping tile lands the player: the hitbox bottom is put exactly
      on the tile's top and the fall stops. The rest of the tiles then see a player at
      rest. */
  lemma FallLandsOnFirstOverlap(ts: seq<Tile>, s: YState, m: Margins, factor: real, k: nat)
    requires s.vY > 0.0 && k < |ts| && HitboxOf(s.rect, m).Overlaps(ts[k].Box())
    requires forall i :: 0 <= i < k ==> !HitboxOf(s.rect, m).Overlaps(ts[i].Box())
    ensures var landed := YState(PlaceBottom(s.rect, m, ts[k].y), 0.0, s.scaling);
            HitboxOf(landed.rect, m).max.y == ts[k].y &&
            YScan(ts[..k + 1], s, m, factor) == landed &&
            YScan(ts, s, m, factor) == YScan(ts[k + 1..], landed, m, factor)
  {
    assert ts[..k + 1] == ts[..k] + [ts[k]];
    YScanAppend(ts[..k], [ts[k]], s, m, factor);
    YScanUntouched(ts[..k], s, m, factor);
    assert YScan([ts[k]], s, m, factor) == YTile(ts[k], YScan([], s, m, factor), m, factor);
    assert ts == ts[..k + 1] + ts[k + 1..];
    YScanAppend(ts[..k + 1], ts[k + 1..], s, m, factor);
  }

  /** Rising or at rest, the first overlapping tile bonks the player: the hitbox top is put
      on the tile's bottom edge, the rectangle is squashed by the factor about its bottom edge,
      `scaling` is multiplied by the factor, and the vertical motion stops. With the factor 1
      that `main.go` uses, the hitbox top stays exactly on the tile's bottom edge. */
  lemma CeilingSquashesOnFirstOverlap(ts: seq<Tile>, s: YState, m: Margins, factor: real, k: nat)
    requires s.vY <= 0.0 && k < |ts| && HitboxOf(s.rect, m).Overlaps(ts[k].Box())
    requires forall i :: 0 <= i < k ==> !HitboxOf(s.rect, m).Overlaps(ts[i].Box())
    ensures var bonked := YState(PlaceTop(s.rect, m, ts[k].y + TileHeight as real).Scale(factor),
                                 0.0, s.scaling * factor);
            YScan(ts[..k + 1], s, m, factor) == bonked &&
            YScan(ts, s, m, factor) == YScan(ts[k + 1..], bonked, m, factor) &&
            (factor == 1.0 ==> HitboxOf(bonked.rect, m).min.y == ts[k].y + TileHeight as real)
  {
    var top := PlaceTop(s.rect, m, ts[k].y + TileHeight as real);
    var bonked := YState(top.Scale(factor), 0.0, s.scaling * factor);
    assert YTile(ts[k], s, m, factor) == bonked;
    assert ts[..k + 1] == ts[..k] + [ts[k]];
    YScanAppend(ts[..k], [ts[k]], s, m, factor);
    YScanUntouched(ts[..k], s, m, factor);
    assert YScan([ts[k]], s, m, factor) == YTile(ts[k], YScan([], s, m, factor), m, factor);
    assert YScan(ts[..k + 1], s, m, factor) == bonked;
    assert ts == ts[..k + 1] + ts[k + 1..];
    YScanAppend(ts[..k + 1], ts[k + 1..], s, m, factor);
    ScaleOneIsIdentity(PlaceTop(s.rect, m, ts[k].y + TileHeight as real));
  }

  /** Right after the landing tile's own step the hitbox bottom is on that tile's top edge, so
      the floor test would find the tile. This exact equality is the only way `checkIsOnFloor`
      succeeds. Later tiles of the same loop can still move the player: see
      `LandingStaysOnFloor`. */
  lemma LandingIsOnFloor(ts: seq<Tile>, k: nat, s: YState, m: Margins, factor: real)
    requires k < |ts| && s.vY > 0.0 && HitboxOf(s.rect, m).Overlaps(ts[k].Box())
    ensures OnFloor(HitboxOf(YTile(ts[k], s, m, factor).rect, m), ts)
  {
    assert Supports(HitboxOf(YTile(ts[k], s, m, factor).rect, m), ts[k]);
  }

  /** The whole Y loop, as the next tick's floor test sees it. Falling, the first overlapping
      tile lands the player; if no later tile overlaps the landed hitbox, the loop ends with the
      player at rest on that tile, so the next `checkIsOnFloor` succeeds. A later tile that does
      overlap takes the `else` branch (`vY` is 0 by then) and can push the player off. */
  lemma LandingStaysOnFloor(ts: seq<Tile>, s: YState, m: Margins, factor: real, k: nat)
    requires s.vY > 0.0 && k < |ts| && HitboxOf(s.rect, m).Overlaps(ts[k].Box())
    requires forall i :: 0 <= i < k ==> !HitboxOf(s.rect, m).Overlaps(ts[i].Box())
    requires forall i :: k < i < |ts| ==>
               !HitboxOf(PlaceBottom(s.rect, m, ts[k].y), m).Overlaps(ts[i].Box())
    ensures YScan(ts, s, m, factor).vY == 0.0
    ensures OnFloor(HitboxOf(YScan(ts, s, m, factor).rect, m), ts)
  {
    var landed := YState(PlaceBottom(s.rect, m, ts[k].y), 0.0, s.scaling);
    FallLandsOnFirstOverlap(ts, s, m, factor, k);
    var rest := ts[k + 1..];
    forall i | 0 <= i < |rest|
      ensures !HitboxOf(landed.rect, m).Overlaps(rest[i].Box())
    {
      assert rest[i] == ts[k + 1 + i];
    }
    YScanUntouched(rest, landed, m, factor);
    LandingIsOnFloor(ts, k, s, m, factor);
  }

  /** A tick: `Update`'s order is floor test, input, move X, resolve X, move Y, gravity,
      resolve Y. The vertical move uses the velocity before gravity. */
  function Tick(ts: seq<Tile>, w: World, keys: Keys, c: Config, gravity: real): (r: World)
    ensures r.jumpPressed == keys.jump
    ensures r.body.isOnFloor == OnFloor(HitboxOf(w.body.rect, c.margins), ts)
    ensures c.jumpSpeed > 0.0 && r.body.isJumping ==> keys.jump
  {
    var b := w.body;
    var onFloor := OnFloor(HitboxOf(b.rect, c.margins), ts);
    var vX := Accelerate(b.vX, keys.left, keys.right, c);
    var j := Jump.Transition(Jump.JumpState(b.vY, b.isJumping, w.jumpPressed), onFloor, keys.jump,
                             c.jumpSpeed, c.jumpHoverSpeed);
    var x := XResolve(ts, XState(b.rect.MoveX(vX), vX), c.margins);
    var vY := Gravity(j.vY, onFloor, gravity, c.terminalVelocityY);
    var y := YScan(ts, YState(x.rect.MoveY(j.vY), vY, b.scaling), c.margins, c.scalingFactor);
    World(Body(y.rect, x.vX, y.vY, onFloor, j.isJumping, y.scaling), j.latched)
  }

  /** Whatever the keys and the tiles, a tick leaves the horizontal speed within `maxVX`
      (as long as `maxVX` is at least the 0.01 the leftward snap leaves). */
  lemma TickBoundsHorizontalSpeed(ts: seq<Tile>, w: World, keys: Keys, c: Config, gravity: real)
    requires c.maxVX >= 0.01
    ensures var v := Tick(ts, w, keys, c, gravity).body.vX;
            -c.maxVX <= v <= c.maxVX
  {
    var vX := Accelerate(w.body.vX, keys.left, keys.right, c);
    var s := XState(w.body.rect.MoveX(vX), vX);
    XScanVelocity(HitboxOf(s.rect, c.margins), ts, s, c.margins);
  }

  /** A tick starts a new jump only on a fresh press of the jump key while the floor test
      of that tick held; a jump that was already under way may only continue. */
  lemma TickJumpNeedsFloor(ts: seq<Tile>, w: World, keys: Keys, c: Config, gravity: real)
    ensures var next := Tick(ts, w, keys, c, gravity);
            next.body.isJumping && !(w.body.isJumping && w.body.vY < 0.0) ==>
              keys.jump && !w.jumpPressed && next.jumpPressed &&
              OnFloor(HitboxOf(w.body.rect, c.margins), ts) && next.body.isOnFloor
  {
  }

  // ---------------------------------------------------------------- the imperative state

  class Player {
    var vX: real
    var vY: real
    var rect: Rect
    var isOnFloor: bool
    var isJumping: bool
    var scaling: real

    // Tunables: set once and never written by the package.
    const friction: real
    const acceleration: real
    const maxVX: real
    const terminalVelocityY: real
    const jumpSpeed: real
    const jumpHoverSpeed: real
    const scalingFactor: real
    const marginTop: real
    const marginLeft: real
    const marginBottom: real
    const marginRight: real

    /** The package's initial `player` value. */
    constructor ()
      ensures vX == 0.0 && vY == 0.0 && rect == Make(0.0, 0.0, 32.0, 32.0)
      ensures !isOnFloor && !isJumping && scaling == 1.0 && scalingFactor == 1.0
      ensures friction == 0.08 && acceleration == 0.3 && maxVX == 5.0 && terminalVelocityY == 9.0
      ensures jumpSpeed == 12.0 && jumpHoverSpeed == 3.0
      ensures marginTop == 6.0 && marginLeft == 6.0 && marginRight == 6.0 && marginBottom == 0.0
    {
      vX, vY := 0.0, 0.0;
      rect := Make(0.0, 0.0, 32.0, 32.0);
      isOnFloor, isJumping := false, false;
      friction, acceleration, maxVX, terminalVelocityY := 0.08, 0.3, 5.0, 9.0;
      jumpSpeed, jumpHoverSpeed := 12.0, 3.0;
      scaling, scalingFactor := 1.0, 1.0;
      marginTop, marginLeft, marginRight, marginBottom := 6.0, 6.0, 6.0, 0.0;
    }

    function Insets(): Margins {
      Margins(marginTop, marginLeft, marginBottom, marginRight)
    }

    function Tunables(): Config {
      Config(friction, acceleration, maxVX, terminalVelocityY, jumpSpeed,
                        jumpHoverSpeed, scalingFactor, Insets())
    }

    function State(): Body
      reads this
    {
      Body(rect, vX, vY, isOnFloor, isJumping, scaling)
    }

    function Hitbox(): Rect
      reads this`rect
    {
      HitboxOf(rect, Insets())
    }

    method SetLeft(x: real)
      modifies this`rect
      ensures rect == PlaceLeft(old(rect), Insets(), x) && Hitbox().min.x == x
    {
      rect := rect.SetLeft(x - marginLeft);
    }

    method SetRight(x: real)
      modifies this`rect
      ensures rect == PlaceRight(old(rect), Insets(), x) && Hitbox().max.x == x
    {
      rect := rect.SetRight(x + marginRight);
    }

    method SetTop(y: real)
      modifies this`rect
      ensures rect == PlaceTop(old(rect), Insets(), y) && Hitbox().min.y == y
    {
      rect := rect.SetTop(y - marginTop);
    }

    method SetBottom(y: real)
      modifies this`rect
      ensures rect == PlaceBottom(old(rect), Insets(), y) && Hitbox().max.y == y
    {
      rect := rect.SetBottom(y + marginBottom);
    }
  }

  class Game {
    const gravity: real
    var tiles: seq<Tile>
    var jumpPressed: bool
    const player: Player

    /** The package's initial globals, before `loadTiles`. */
    constructor ()
      ensures gravity == 0.8 && tiles == [] && !jumpPressed && fresh(player)
      ensures player.State() == Body(Make(0.0, 0.0, 32.0, 32.0), 0.0, 0.0, false, false, 1.0)
      ensures player.Tunables() == Config(0.08, 0.3, 5.0, 9.0, 12.0, 3.0, 1.0, Margins(6.0, 6.0, 0.0, 6.0))
    {
      gravity := 0.8;
      tiles := [];
      jumpPressed := false;
      player := new Player();
    }

    function State(): World
      reads this, player
    {
      World(player.State(), jumpPressed)
    }

    /** `loadTiles`: appends one tile per solid cell, row by row. */
    method LoadTiles(tileMap: seq<string>)
      modifies this`tiles
      ensures tiles == old(tiles) + Tiles(tileMap)
    {
      for row := 0 to |tileMap|
        invariant tiles == old(tiles) + MapTiles(tileMap, row)
      {
        var s := tileMap[row];
        for col := 0 to |s|
          invariant tiles == old(tiles) + MapTiles(tileMap, row) + RowTiles(s, row, col)
        {
          if s[col] == 'x' {
            tiles := tiles + [TileAt(row, col)];
          }
        }
      }
    }

    /** `checkIsOnFloor`: the first supporting tile ends the scan. */
    method CheckIsOnFloor()
      modifies player`isOnFloor
      ensures player.isOnFloor == OnFloor(player.Hitbox(), tiles)
    {
      var hb := player.Hitbox();
      for i := 0 to |tiles|
        invariant forall j :: 0 <= j < i ==> !Supports(hb, tiles[j])
      {
        var t := tiles[i];
        if hb.max.x >= t.x && hb.min.x <= t.x + TileWidth as real && hb.max.y == t.y {
          player.isOnFloor := true;
          return;
        }
      }
      player.isOnFloor := false;
    }

    /** `handleInput` without the polling: the horizontal velocity, then the jump. */
    method HandleInput(keys: Keys)
      modifies player`vX, player`vY, player`isJumping, this`jumpPressed
      ensures player.vX == Accelerate(old(player.vX), keys.left, keys.right, player.Tunables())
      ensures Jump.JumpState(player.vY, player.isJumping, jumpPressed)
           == Jump.Transition(Jump.JumpState(old(player.vY), old(player.isJumping), old(jumpPressed)),
                              player.isOnFloor, keys.jump, player.jumpSpeed, player.jumpHoverSpeed)
    {
      Steer(keys.left, keys.right);
      HandleJumpKey(keys.jump);
    }

    /** The arrow-key half of `handleInput`. */
    method Steer(left: bool, right: bool)
      modifies player`vX
      ensures player.vX == Accelerate(old(player.vX), left, right, player.Tunables())
    {
      var dVX := 0.0;
      if right {
        dVX := player.acceleration;
      } else if left {
        dVX := -player.acceleration;
      }
      assert dVX == Push(left, right, player.acceleration);
      if dVX * player.vX <= 0.0 {
        player.vX := player.vX * (1.0 - player.friction);
      }
      assert player.vX == Slowed(old(player.vX), dVX, player.friction);
      player.vX := player.vX + dVX;
      if player.vX > player.maxVX {
        player.vX := player.maxVX;
      } else if player.vX < -player.maxVX {
        player.vX := -player.maxVX;
      }
    }

    /** The jump-key half of `handleInput`, with `jumpPressed` as the latch. */
    method HandleJumpKey(keyDown: bool)
      modifies player`vY, player`isJumping, this`jumpPressed
      ensures Jump.JumpState(player.vY, player.isJumping, jumpPressed)
           == Jump.Transition(Jump.JumpState(old(player.vY), old(player.isJumping), old(jumpPressed)),
                              player.isOnFloor, keyDown, player.jumpSpeed, player.jumpHoverSpeed)
    {
      if player.vY >= 0.0 {
        player.isJumping := false;
      }
      if keyDown {
        if !jumpPressed {
          jumpPressed := true;
          if player.isOnFloor {
            player.vY := -player.jumpSpeed;
            player.isJumping := true;
          }
        }
      } else {
        jumpPressed := false;
        if player.isJumping && player.vY < -player.jumpHoverSpeed {
          player.vY := -player.jumpHoverSpeed;
        }
        player.isJumping := false;
      }
    }

    method HandleXCollisions()
      modifies player`rect, player`vX
      ensures XState(player.rect, player.vX) == XResolve(tiles, XState(old(player.rect), old(player.vX)), player.Insets())
    {
      var hitbox := player.Hitbox();
      ghost var start := XState(player.rect, player.vX);
      for i := 0 to |tiles|
        invariant XState(player.rect, player.vX) == XScan(hitbox, tiles[..i], start, player.Insets())
      {
        var t := tiles[i];
        if hitbox.Overlaps(t.Box()) {
          if player.vX > 0.0 {
            player.SetRight(t.Box().min.x);
            player.vX := 0.0;
          } else if player.vX < 0.0 {
            player.SetLeft(t.Box().max.x);
            player.vX := -0.01;
          }
        }
        assert tiles[..i + 1][..i] == tiles[..i];
      }
      assert tiles[..|tiles|] == tiles;

      if player.rect.max.x > ScreenWidth as real {
        player.rect := player.rect.SetRight(ScreenWidth as real);
        player.vX := player.vX * -1.0;
      } else if player.rect.min.x < 0.0 {
        player.rect := player.rect.SetLeft(0.0);
        player.vX := player.vX * -1.0;
      }
    }

    method HandleYCollisions()
      modifies player`rect, player`vY, player`scaling
      ensures YState(player.rect, player.vY, player.scaling)
           == YScan(tiles, YState(old(player.rect), old(player.vY), old(player.scaling)),
                    player.Insets(), player.scalingFactor)
    {
      ghost var start := YState(player.rect, player.vY, player.scaling);
      for i := 0 to |tiles|
        invariant YState(player.rect, player.vY, player.scaling)
               == YScan(tiles[..i], start, player.Insets(), player.scalingFactor)
      {
        var t := tiles[i];
        if player.Hitbox().Overlaps(t.Box()) {
          if player.vY > 0.0 {
            player.SetBottom(t.Box().min.y);
          } else {
            player.SetTop(t.Box().max.y);
            player.rect := player.rect.Scale(player.scalingFactor);
            player.scaling := player.scaling * player.scalingFactor;
          }
          player.vY := 0.0;
        }
        assert tiles[..i + 1][..i] == tiles[..i];
      }
      assert tiles[..|tiles|] == tiles;
    }

    method ApplyGravity()
      modifies player`vY
      ensures player.vY == Gravity(old(player.vY), player.isOnFloor, gravity, player.terminalVelocityY)
    {
      if player.isOnFloor {
        return;
      }
      player.vY := player.vY + gravity;
      if player.vY > player.terminalVelocityY {
        player.vY := player.terminalVelocityY;
      }
    }

    /** One tick of the game. */
    method Update(keys: Keys)
      modifies this`jumpPressed, player`rect, player`vX, player`vY, player`isOnFloor,
               player`isJumping, player`scaling
      ensures State() == Tick(tiles, old(State()), keys, player.Tunables(), gravity)
    {
      CheckIsOnFloor();
      HandleInput(keys);
      player.rect := player.rect.MoveX(player.vX);
      HandleXCollisions();
      player.rect := player.rect.MoveY(player.vY);
      ApplyGravity();
      HandleYCollisions();
    }
  }
}
