/**
 * The tile-to-spawn mapping of Game.play_level. The level is a grid of
 * comma-separated tokens, one row per line. The loop visits x over
 * range(0, game_width, tile_size) and, inside, y over
 * range(0, game_height, tile_size), and reads the token in row y / tile_size,
 * column x / tile_size: 'W' adds a wall at (x, y), 'E' an enemy, 'C' a
 * collectable, 'P' moves the player there, and any other token adds
 * nothing. A row or column the loop reaches but the grid lacks raises
 * IndexError.
 */
module Spawning {
  import opened Geometry
  import opened Wrappers

  /** A level file as rows of tokens. */
  type Grid = seq<seq<string>>

  /** What one tile asks play_level to do, at the tile's top-left pixel. */
  datatype Spawn = WallAt(at: Point) | EnemyAt(at: Point) | PlayerAt(at: Point) | CollectableAt(at: Point)

  function TileSpawn(token: string, x: int, y: int): Option<Spawn>
  {
    if token == "W" then Some(WallAt(Point(x, y)))
    else if token == "E" then Some(EnemyAt(Point(x, y)))
    else if token == "P" then Some(PlayerAt(Point(x, y)))
    else if token == "C" then Some(CollectableAt(Point(x, y)))
    else None
  }

  /** len(range(0, extent, step)): one value for 0, then the values of range(step, extent, step). */
  function Steps(extent: int, step: nat): nat
    requires step > 0
    decreases extent
  {
    if extent <= 0 then 0 else 1 + Steps(extent - step, step)
  }

  /** The k-th value of range(0, _, step), counted up by repeated steps as the loop does. */
  function Pixel(k: nat, step: nat): nat
  {
    if k == 0 then 0 else Pixel(k - 1, step) + step
  }

  /** The k-th tile starts at pixel k * step. */
  lemma {:induction false} PixelIsProduct(k: nat, step: nat)
    ensures Pixel(k, step) == k * step
  {
    if k > 0 {
      PixelIsProduct(k - 1, step);
    }
  }

  /** range(0, extent, step) visits Pixel(k, step) exactly for k below Steps(extent, step). */
  lemma {:induction false} StepsCount(extent: int, step: nat, k: nat)
    requires step > 0
    ensures k < Steps(extent, step) <==> Pixel(k, step) < extent
    decreases k
  {
    if k > 0 && extent > 0 {
      StepsCount(extent - step, step, k - 1);
    }
  }

  /** Every cell the loop reads exists: the grid has the rows, and each of them the columns. */
  predicate Covers(grid: Grid, cols: nat, rows: nat)
  {
    cols == 0 || (rows <= |grid| && forall gy :: 0 <= gy < rows ==> cols <= |grid[gy]|)
  }

  /** A column the loop reads to the end extends the area it has read by one column. */
  lemma CoversNext(grid: Grid, gx: nat, rows: nat)
    requires Covers(grid, gx, rows)
    requires rows <= |grid| && forall gy :: 0 <= gy < rows ==> gx < |grid[gy]|
    ensures Covers(grid, gx + 1, rows)
  {
  }

  /** A column the loop cannot read to the end means the grid does not cover the loop. */
  lemma CoversNot(grid: Grid, gx: nat, cols: nat, rows: nat)
    requires gx < cols
    requires !(rows <= |grid| && forall gy :: 0 <= gy < rows ==> gx < |grid[gy]|)
    ensures !Covers(grid, cols, rows)
  {
  }

  /** What the tile in row gy, column gx asks for, at its pixel. */
  function Cell(grid: Grid, gx: nat, gy: nat, tileSize: nat): Option<Spawn>
    requires gy < |grid| && gx < |grid[gy]|
  {
    TileSpawn(grid[gy][gx], Pixel(gx, tileSize), Pixel(gy, tileSize))
  }

  /** The spawns of column gx, rows 0 .. n - 1, top to bottom. */
  function Column(grid: Grid, gx: nat, n: nat, tileSize: nat): seq<Spawn>
    requires n <= |grid| && forall gy :: 0 <= gy < n ==> gx < |grid[gy]|
  {
    if n == 0 then []
    else Column(grid, gx, n - 1, tileSize) + ToSeq(Cell(grid, gx, n - 1, tileSize))
  }

  /** The next row of the column adds what its cell asks for. */
  lemma ColumnNext(grid: Grid, gx: nat, gy: nat, tileSize: nat)
    requires gy < |grid| && forall k :: 0 <= k <= gy ==> gx < |grid[k]|
    ensures Column(grid, gx, gy + 1, tileSize)
            == Column(grid, gx, gy, tileSize) + ToSeq(TileSpawn(grid[gy][gx], Pixel(gx, tileSize), Pixel(gy, tileSize)))
  {
  }

  /** The spawns of columns 0 .. cols - 1, column by column, each top to bottom. */
  function Layout(grid: Grid, cols: nat, rows: nat, tileSize: nat): seq<Spawn>
    requires Covers(grid, cols, rows)
  {
    if cols == 0 then []
    else Layout(grid, cols - 1, rows, tileSize) + Column(grid, cols - 1, rows, tileSize)
  }

  /** A column spawns exactly what its tiles ask for. */
  lemma {:induction false} ColumnCells(grid: Grid, gx: nat, n: nat, tileSize: nat, s: Spawn)
    requires n <= |grid| && forall gy :: 0 <= gy < n ==> gx < |grid[gy]|
    ensures s in Column(grid, gx, n, tileSize) <==>
            exists gy :: 0 <= gy < n && Cell(grid, gx, gy, tileSize) == Some(s)
  {
    if n > 0 {
      ColumnCells(grid, gx, n - 1, tileSize, s);
    }
  }

  /** Every spawn of the layout comes from a cell the loop visits. */
  lemma {:induction false} LayoutCellOf(grid: Grid, cols: nat, rows: nat, tileSize: nat, s: Spawn)
    requires Covers(grid, cols, rows) && s in Layout(grid, cols, rows, tileSize)
    ensures exists gx, gy :: 0 <= gx < cols && 0 <= gy < rows && Cell(grid, gx, gy, tileSize) == Some(s)
  {
    var gx' := cols - 1;
    if s in Layout(grid, gx', rows, tileSize) {
      LayoutCellOf(grid, gx', rows, tileSize, s);
      var gx, gy :| 0 <= gx < gx' && 0 <= gy < rows && Cell(grid, gx, gy, tileSize) == Some(s);
      assert 0 <= gx < cols;
    } else {
      ColumnCells(grid, gx', rows, tileSize, s);
      var gy :| 0 <= gy < rows && Cell(grid, gx', gy, tileSize) == Some(s);
      assert 0 <= gx' < cols;
    }
  }

  /** Every cell the loop visits that asks for a spawn has it in the layout. */
  lemma {:induction false} LayoutHasCell(grid: Grid, cols: nat, rows: nat, tileSize: nat, gx: nat, gy: nat, s: Spawn)
    requires Covers(grid, cols, rows) && gx < cols && gy < rows
    requires Cell(grid, gx, gy, tileSize) == Some(s)
    ensures s in Layout(grid, cols, rows, tileSize)
  {
    var gx' := cols - 1;
    var front, last := Layout(grid, gx', rows, tileSize), Column(grid, gx', rows, tileSize);
    assert Layout(grid, cols, rows, tileSize) == front + last;
    if gx < gx' {
      LayoutHasCell(grid, gx', rows, tileSize, gx, gy, s);
      assert s in front;
    } else {
      ColumnCells(grid, gx', rows, tileSize, s);
      assert s in last;
    }
  }

  /**
   * The spawn mapping: a spawn comes out of play_level exactly when some
   * cell the loop visits holds the token for it, at that cell's pixel.
   */
  lemma LayoutCells(grid: Grid, cols: nat, rows: nat, tileSize: nat, s: Spawn)
    requires Covers(grid, cols, rows)
    ensures s in Layout(grid, cols, rows, tileSize) <==>
            exists gx, gy :: 0 <= gx < cols && 0 <= gy < rows && Cell(grid, gx, gy, tileSize) == Some(s)
  {
    if s in Layout(grid, cols, rows, tileSize) {
      LayoutCellOf(grid, cols, rows, tileSize, s);
    }
    if exists gx, gy :: 0 <= gx < cols && 0 <= gy < rows && Cell(grid, gx, gy, tileSize) == Some(s) {
      var gx, gy :| 0 <= gx < cols && 0 <= gy < rows && Cell(grid, gx, gy, tileSize) == Some(s);
      LayoutHasCell(grid, cols, rows, tileSize, gx, gy, s);
    }
  }

  /** The tokens: W, E, P and C spawn at the tile's pixel, and nothing else spawns. */
  lemma {:induction false} TileSpawnRule(token: string, x: int, y: int)
    ensures TileSpawn(token, x, y).Some? <==> token in ["W", "E", "P", "C"]
    ensures TileSpawn(token, x, y).Some? ==> TileSpawn(token, x, y).value.at == Point(x, y)
    ensures TileSpawn(token, x, y) == Some(WallAt(Point(x, y))) <==> token == "W"
    ensures TileSpawn(token, x, y) == Some(EnemyAt(Point(x, y))) <==> token == "E"
    ensures TileSpawn(token, x, y) == Some(PlayerAt(Point(x, y))) <==> token == "P"
    ensures TileSpawn(token, x, y) == Some(CollectableAt(Point(x, y))) <==> token == "C"
  {
  }

  /** The wall rectangles, in spawn order. */
  function WallsOf(spawns: seq<Spawn>, size: Size): seq<Rect>
  {
    if spawns == [] then []
    else
      var s := spawns[|spawns| - 1];
      WallsOf(spawns[..|spawns| - 1], size) + (if s.WallAt? then [At(s.at.x, s.at.y, size)] else [])
  }

  /** The enemy positions, in spawn order. */
  function EnemySpots(spawns: seq<Spawn>): seq<Point>
  {
    if spawns == [] then []
    else
      var s := spawns[|spawns| - 1];
      EnemySpots(spawns[..|spawns| - 1]) + (if s.EnemyAt? then [s.at] else [])
  }

  /** The collectable positions, in spawn order. */
  function PickupSpots(spawns: seq<Spawn>): seq<Point>
  {
    if spawns == [] then []
    else
      var s := spawns[|spawns| - 1];
      PickupSpots(spawns[..|spawns| - 1]) + (if s.CollectableAt? then [s.at] else [])
  }

  /** Where the player ends up: the last 'P' visited, if there is one. */
  function PlayerSpot(spawns: seq<Spawn>): Option<Point>
  {
    if spawns == [] then None
    else
      var s := spawns[|spawns| - 1];
      if s.PlayerAt? then Some(s.at) else PlayerSpot(spawns[..|spawns| - 1])
  }

  /** The player's rectangle after the spawn loop: moved to the last 'P', or where it was. */
  function Placed(start: Rect, spot: Option<Point>): Rect
  {
    match spot
    case None => start
    case Some(p) => start.(x := p.x, y := p.y)
  }

  /**
   * What the spawn loop has put in the groups so far: the wall rectangles,
   * the enemy and the collectable spots, each in the order they were added,
   * and the player's rectangle.
   */
  datatype Placement = Placement(walls: seq<Rect>, enemies: seq<Point>, pickups: seq<Point>, player: Rect)

  /** Before the loop: empty groups, the player where it was. */
  function Unplaced(start: Rect): Placement
  {
    Placement([], [], [], start)
  }

  /** One spawn carried out. */
  function Place(p: Placement, s: Spawn, wall: Size): Placement
  {
    match s
    case WallAt(at) => p.(walls := p.walls + [At(at.x, at.y, wall)])
    case EnemyAt(at) => p.(enemies := p.enemies + [at])
    case PlayerAt(at) => p.(player := p.player.(x := at.x, y := at.y))
    case CollectableAt(at) => p.(pickups := p.pickups + [at])
  }

  /** The spawns carried out one after the other, in list order. */
  function PlaceAll(p: Placement, spawns: seq<Spawn>, wall: Size): Placement
  {
    if spawns == [] then p
    else Place(PlaceAll(p, spawns[..|spawns| - 1], wall), spawns[|spawns| - 1], wall)
  }

  lemma PlaceOne(p: Placement, s: Spawn, wall: Size)
    ensures PlaceAll(p, [s], wall) == Place(p, s, wall)
  {
    assert [s][..0] == [];
  }

  /** Carrying out a list in two pieces is carrying it out whole. */
  lemma {:induction false} PlaceAllAppend(p: Placement, a: seq<Spawn>, b: seq<Spawn>, wall: Size)
    ensures PlaceAll(p, a + b, wall) == PlaceAll(PlaceAll(p, a, wall), b, wall)
  {
    if b == [] {
      assert a + b == a;
    } else {
      var n := |b| - 1;
      PlaceAllAppend(p, a, b[..n], wall);
      assert (a + b)[..|a + b| - 1] == a + b[..n];
    }
  }

  /**
   * What the loop leaves, stated per kind: the walls, enemies and
   * collectables of the list in list order, and the player at the last 'P'.
   */
  function Expected(start: Rect, spawns: seq<Spawn>, wall: Size): Placement
  {
    Placement(WallsOf(spawns, wall), EnemySpots(spawns), PickupSpots(spawns), Placed(start, PlayerSpot(spawns)))
  }

  /** Carrying out the spawns one by one from empty groups leaves what Expected says. */
  lemma {:induction false} PlaceAllSorted(start: Rect, spawns: seq<Spawn>, wall: Size)
    ensures PlaceAll(Unplaced(start), spawns, wall) == Expected(start, spawns, wall)
  {
    if spawns != [] {
      var n := |spawns| - 1;
      PlaceAllSorted(start, spawns[..n], wall);
      assert spawns == spawns[..n] + [spawns[n]];
      SpawnsSnoc(spawns[..n], spawns[n], wall);
    }
  }

  /** One more spawn lands at the end of its own list, and only there. */
  lemma SpawnsSnoc(spawned: seq<Spawn>, s: Spawn, size: Size)
    ensures WallsOf(spawned + [s], size) == WallsOf(spawned, size) + (if s.WallAt? then [At(s.at.x, s.at.y, size)] else [])
    ensures EnemySpots(spawned + [s]) == EnemySpots(spawned) + (if s.EnemyAt? then [s.at] else [])
    ensures PickupSpots(spawned + [s]) == PickupSpots(spawned) + (if s.CollectableAt? then [s.at] else [])
    ensures PlayerSpot(spawned + [s]) == if s.PlayerAt? then Some(s.at) else PlayerSpot(spawned)
  {
    assert (spawned + [s])[..|spawned|] == spawned;
  }

  /**
   * What the spawn list puts where: each wall, enemy and collectable of the
   * list appears in its own list at its own position, and the player spot is
   * a 'P' of the list with no 'P' after it. A wall is listed exactly where
   * the list places one.
   */
  lemma {:induction false} SpawnsSorted(spawns: seq<Spawn>, size: Size)
    ensures forall p :: p in EnemySpots(spawns) <==> EnemyAt(p) in spawns
    ensures forall p :: p in PickupSpots(spawns) <==> CollectableAt(p) in spawns
    ensures forall r :: r in WallsOf(spawns, size) <==> exists p :: WallAt(p) in spawns && r == At(p.x, p.y, size)
    ensures |WallsOf(spawns, size)| + |EnemySpots(spawns)| + |PickupSpots(spawns)| <= |spawns|
    ensures PlayerSpot(spawns).None? <==> forall p :: PlayerAt(p) !in spawns
    ensures PlayerSpot(spawns).Some? ==>
              exists i :: 0 <= i < |spawns| && spawns[i] == PlayerAt(PlayerSpot(spawns).value)
                          && forall j :: i < j < |spawns| ==> !spawns[j].PlayerAt?
  {
    if spawns != [] {
      var n := |spawns| - 1;
      var front := spawns[..n];
      SpawnsSorted(front, size);
      assert spawns == front + [spawns[n]];
      forall r | r in WallsOf(spawns, size)
        ensures exists p :: WallAt(p) in spawns && r == At(p.x, p.y, size)
      {
        if r in WallsOf(front, size) {
          var p :| WallAt(p) in front && r == At(p.x, p.y, size);
          assert WallAt(p) in spawns;
        } else {
          assert WallAt(spawns[n].at) in spawns;
        }
      }
      if PlayerSpot(spawns).Some? && !spawns[n].PlayerAt? {
        var i :| 0 <= i < |front| && front[i] == PlayerAt(PlayerSpot(front).value)
                 && forall j :: i < j < |front| ==> !front[j].PlayerAt?;
        assert spawns[i] == front[i];
      }
    }
  }
}
