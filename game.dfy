/**
 * game.py: the Game object's state, the collision pass that runs every frame
 * (check_collisions), the spawn loop of play_level and the cleared-level
 * branch of the game loop. Rendering, menus, sounds and the event loop are
 * not part of this model; the level grid, the clock and the random draws are
 * parameters.
 */
module Engine {
  import opened Geometry
  import opened Combat
  import opened Wrappers
  import opened Groups
  import opened Entities
  import opened Collisions
  import opened Spawning
  import opened Levels

  datatype GameState = Title | Pause | Playing | Exit | NewGame | GameOver | IntroStory | Win

  /** The bounding rectangles of the images each sprite takes its size from. */
  datatype Sprites = Sprites(wall: Size, enemy: Size, collectable: Size)

  /** What the collision pass reads and changes of the player. */
  ghost function PlayerViewOf(p: Player): PlayerView
    reads p
  {
    PlayerView(p.rect, p.Status(), p.maxHealth, p.damage)
  }

  /** What the collision pass reads and changes of an enemy. */
  ghost function EnemyViewOf(e: Enemy): EnemyView
    reads e
  {
    EnemyView(e.rect, e.Status(), e.meleeDmg, e.rewardChance)
  }

  /** What spawning decides about an enemy: its rectangle, vitals, plan and action timer. */
  datatype SpawnedEnemy = SpawnedEnemy(rect: Rect, status: Vitals, plan: Behaviour, actionTimer: int)

  /** The groups and the player's rectangle, as spawning leaves them. */
  datatype Board = Board(walls: seq<Rect>, roster: seq<SpawnedEnemy>, pickups: seq<Collectable>, player: Rect)

  ghost function SpawnedOf(e: Enemy): SpawnedEnemy
    reads e
  {
    SpawnedEnemy(e.rect, e.Status(), e.Plan(), e.actionTimer)
  }

  ghost function SpawnedViews(es: seq<Enemy>): (rs: seq<SpawnedEnemy>)
    reads es
    ensures |rs| == |es|
  {
    seq(|es|, i requires 0 <= i < |es| reads es => SpawnedOf(es[i]))
  }

  /** What the collision pass reads of a bullet. */
  ghost function BulletViewOf(b: Bullet): BulletView
    reads b
  {
    BulletView(b.rect, b.damage, b.target)
  }

  ghost function EnemyViews(es: seq<Enemy>): (fs: seq<EnemyView>)
    reads es
    ensures |fs| == |es|
  {
    seq(|es|, i requires 0 <= i < |es| reads es => EnemyViewOf(es[i]))
  }

  ghost function BulletViews(bs: seq<Bullet>): (ss: seq<BulletView>)
    reads bs
    ensures |ss| == |bs|
  {
    seq(|bs|, i requires 0 <= i < |bs| reads bs => BulletViewOf(bs[i]))
  }

  /** Removing enemies from the group removes their views, in the same places. */
  lemma {:induction false} EnemyViewsKeep(es: seq<Enemy>, keep: seq<bool>)
    requires |es| == |keep|
    ensures EnemyViews(Keep(es, keep)) == Keep(EnemyViews(es), keep)
  {
    if es != [] {
      var n := |es| - 1;
      EnemyViewsKeep(es[..n], keep[..n]);
      assert EnemyViews(es[..n]) == EnemyViews(es)[..n];
      var tail := if keep[n] then [es[n]] else [];
      assert EnemyViews(Keep(es[..n], keep[..n]) + tail) == EnemyViews(Keep(es[..n], keep[..n])) + EnemyViews(tail);
    }
  }

  /** Removing bullets from the group removes their views, in the same places. */
  lemma {:induction false} BulletViewsKeep(bs: seq<Bullet>, keep: seq<bool>)
    requires |bs| == |keep|
    ensures BulletViews(Keep(bs, keep)) == Keep(BulletViews(bs), keep)
  {
    if bs != [] {
      var n := |bs| - 1;
      BulletViewsKeep(bs[..n], keep[..n]);
      assert BulletViews(bs[..n]) == BulletViews(bs)[..n];
      var tail := if keep[n] then [bs[n]] else [];
      assert BulletViews(Keep(bs[..n], keep[..n]) + tail) == BulletViews(Keep(bs[..n], keep[..n])) + BulletViews(tail);
    }
  }

  /** One enemy's view changed and the others' did not. */
  lemma EnemyViewsUpdate(es: seq<Enemy>, fs: seq<EnemyView>, j: nat)
    requires |es| == |fs| && j < |es|
    requires forall k :: 0 <= k < |es| && k != j ==> EnemyViewOf(es[k]) == fs[k]
    ensures EnemyViews(es) == fs[j := EnemyViewOf(es[j])]
  {
  }

  /** The collectables play_level adds, one per spot; the k-th draws `bonus(k)` for its reward_damage. */
  function Pickups(spots: seq<Point>, size: Size, bonus: nat -> bool): (cs: seq<Collectable>)
    ensures |cs| == |spots|
  {
    seq(|spots|, k requires 0 <= k < |spots| => NewCollectable(spots[k].x, spots[k].y, size, bonus(k)))
  }

  class Game {
    var state: GameState
    const screenRect: Rect
    const gameWidth: int
    const gameHeight: int
    const tileSize: nat
    const sprites: Sprites
    /** Set by new_game; the game has no player before that. */
    var player: Player?
    var levelManager: LevelManager
    var enemies: seq<Enemy>
    var bullets: seq<Bullet>
    var walls: seq<Rect>
    var collectables: seq<Collectable>

    /**
     * A game being played: it has a player and a level, no enemy is in the
     * group twice, and every enemy in the group has health left (take_hit
     * removes an enemy as soon as it has none).
     */
    ghost predicate Valid()
      reads this, levelManager, enemies
    {
      && player != null
      && tileSize > 0
      && 0 <= levelManager.currentLevel < |levelManager.levels|
      && Distinct(enemies)
      && (forall e :: e in enemies ==> e.health > 0)
    }

    /** Game(wind_width, wind_height, game_width, game_height, tile_size): the title screen, empty groups. */
    constructor (windWidth: nat, windHeight: nat, gameWidth: int, gameHeight: int, tileSize: nat, sprites: Sprites)
      ensures state == Title && screenRect == Rect(0, 0, windWidth, windHeight)
      ensures this.gameWidth == gameWidth && this.gameHeight == gameHeight
      ensures this.tileSize == tileSize && this.sprites == sprites
      ensures fresh(levelManager) && levelManager.currentLevel == 0 && levelManager.levels == LEVELS
      ensures player == null && enemies == [] && bullets == [] && walls == [] && collectables == []
    {
      state := Title;
      screenRect := Rect(0, 0, windWidth, windHeight);
      this.gameWidth := gameWidth;
      this.gameHeight := gameHeight;
      this.tileSize := tileSize;
      this.sprites := sprites;
      player := null;
      levelManager := new LevelManager();
      enemies := [];
      bullets := [];
      walls := [];
      collectables := [];
    }

    /**
     * Game.check_collisions at time `now`. `draw(k)` is what the k-th
     * drop_loot of this pass draws. `deaths` counts the PLAYERDEADEVENT
     * posts. The outcome is the one Resolve describes: enemies are updated in
     * place and the dead leave the group, bullets are removed by the first
     * and third sweeps, collectables are added by loot and consumed by the
     * player.
     */
    method CheckCollisions(now: int, draw: nat -> LootDraw) returns (deaths: nat)
      requires Valid()
      modifies this`enemies, this`bullets, this`collectables
      modifies enemies`health, enemies`hitState, enemies`hitStateStart
      modifies player`health, player`hitState, player`hitStateStart, player`damage
      ensures Valid() && player == old(player)
      ensures var r := Resolve(old(PlayerViewOf(player)), old(EnemyViews(enemies)), old(BulletViews(bullets)), walls,
                               old(collectables), now, draw, sprites.collectable);
              && PlayerViewOf(player) == r.player
              && EnemyViews(old(enemies)) == r.foes
              && enemies == Keep(old(enemies), Alive(r.foes))
              && bullets == Keep(Keep(old(bullets), r.live), r.held)
              && collectables == r.pickups
              && deaths == r.deathEvents
    {
      ghost var r := Resolve(PlayerViewOf(player), EnemyViews(enemies), BulletViews(bullets), walls, collectables, now, draw, sprites.collectable);
      ghost var swept := old(enemies);
      var live := BulletPhase(now, draw);
      assert EnemyViews(enemies) == Keep(r.foes, Alive(r.foes)) && live == r.live;
      deaths := PlayerPhase(now, swept);
    }

    /** Sweep 1 and the removals it causes: the spent bullets and the dead enemies leave their groups. */
    method BulletPhase(now: int, draw: nat -> LootDraw) returns (live: seq<bool>)
      requires Valid()
      modifies this`enemies, this`bullets, this`collectables
      modifies enemies`health, enemies`hitState, enemies`hitStateStart
      ensures Valid()
      ensures var sw := FirstSweep(old(EnemyViews(enemies)), old(BulletViews(bullets)), walls, old(collectables),
                                   now, draw, sprites.collectable);
              && EnemyViews(old(enemies)) == sw.foes && live == sw.live && collectables == sw.pickups
              && enemies == Keep(old(enemies), Alive(sw.foes)) && EnemyViews(enemies) == Keep(sw.foes, Alive(sw.foes))
              && bullets == Keep(old(bullets), live) && BulletViews(bullets) == Keep(old(BulletViews(bullets)), live)
      ensures PlayerViewOf(player) == old(PlayerViewOf(player))
    {
      live := SweepEnemies(now, draw);
      CullBullets(live);
    }

    /** Sweep 1, then the enemies it killed leave the enemy group. */
    method SweepEnemies(now: int, draw: nat -> LootDraw) returns (live: seq<bool>)
      requires Valid()
      modifies this`enemies, this`collectables
      modifies enemies`health, enemies`hitState, enemies`hitStateStart
      ensures Valid()
      ensures var sw := FirstSweep(old(EnemyViews(enemies)), old(BulletViews(bullets)), walls, old(collectables),
                                   now, draw, sprites.collectable);
              && EnemyViews(old(enemies)) == sw.foes && live == sw.live && collectables == sw.pickups
              && enemies == Keep(old(enemies), Alive(sw.foes)) && EnemyViews(enemies) == Keep(sw.foes, Alive(sw.foes))
      ensures BulletViews(bullets) == old(BulletViews(bullets)) && PlayerViewOf(player) == old(PlayerViewOf(player))
    {
      live := SweepBullets(now, draw);
      CullEnemies();
    }

    /**
     * Sweeps 2, 3 and 4: the enemies, the bullets and the collectables
     * against the player. No enemy is changed, `swept` (the group as sweep 1
     * found it) included.
     */
    method PlayerPhase(now: int, ghost swept: seq<Enemy>) returns (deaths: nat)
      requires Valid()
      modifies this`bullets, this`collectables
      modifies player`health, player`hitState, player`hitStateStart, player`damage
      ensures Valid() && player == old(player)
      ensures var e := PlayerSweeps(old(PlayerViewOf(player)), old(EnemyViews(enemies)), old(BulletViews(bullets)), old(collectables), now);
              && PlayerViewOf(player) == e.player && collectables == e.left
              && bullets == Keep(old(bullets), e.held) && deaths == e.deaths
      ensures EnemyViews(swept) == old(EnemyViews(swept))
    {
      ghost var shots, items := BulletViews(bullets), collectables;
      ghost var melee := Melee(MeleeSweep(PlayerViewOf(player), 0), EnemyViews(enemies), |enemies|, now);
      deaths := MeleePass(now);
      assert PlayerViewOf(player) == melee.player && BulletViews(bullets) == shots;
      ghost var volley := Absorb(AbsorbSweep(melee.player, [], melee.deaths), shots, |bullets|, now);
      var held;
      held, deaths := AbsorbPass(now, deaths);
      assert PlayerViewOf(player) == volley.player && held == volley.held;
      GatherPass();
    }

    /** The enemies take_hit found dead in sweep 1 leave the enemy group. */
    method CullEnemies()
      requires player != null && tileSize > 0 && 0 <= levelManager.currentLevel < |levelManager.levels|
      requires Distinct(enemies)
      modifies this`enemies
      ensures Valid()
      ensures enemies == Keep(old(enemies), Alive(EnemyViews(old(enemies))))
      ensures EnemyViews(enemies) == Keep(EnemyViews(old(enemies)), Alive(EnemyViews(old(enemies))))
      ensures BulletViews(bullets) == old(BulletViews(bullets)) && PlayerViewOf(player) == old(PlayerViewOf(player))
    {
      var group := enemies;
      var flags := seq(|group|, k requires 0 <= k < |group| reads group => group[k].health > 0);
      assert flags == Alive(EnemyViews(group));
      enemies := Filter(group, flags);
      EnemyViewsKeep(group, flags);
      assert flags == Alive(EnemyViews(group));
      forall e | e in enemies
        ensures e.health > 0
      {
        KeepMembers(group, flags, e);
      }
      KeepDistinct(group, flags);
    }

    /** The bullets sweep 1 spent leave the bullet group. */
    method CullBullets(live: seq<bool>)
      requires |live| == |bullets|
      modifies this`bullets
      ensures bullets == Keep(old(bullets), live) && BulletViews(bullets) == Keep(old(BulletViews(bullets)), live)
      ensures Valid() == old(Valid()) && EnemyViews(enemies) == old(EnemyViews(enemies))
    {
      ghost var bs := bullets;
      bullets := Filter(bullets, live);
      BulletViewsKeep(bs, live);
    }

    /**
     * Sweep 1 of check_collisions: every bullet against the enemies (if it
     * targets them) and the walls. The enemies are updated in place, loot is
     * added to the collectables, and `live` flags the bullets that stay.
     */
    method SweepBullets(now: int, draw: nat -> LootDraw) returns (live: seq<bool>)
      requires player != null && Distinct(enemies)
      modifies this`collectables, enemies`health, enemies`hitState, enemies`hitStateStart
      ensures var r := FirstSweep(old(EnemyViews(enemies)), old(BulletViews(bullets)), walls, old(collectables),
                                  now, draw, sprites.collectable);
              EnemyViews(enemies) == r.foes && live == r.live && collectables == r.pickups
      ensures BulletViews(bullets) == old(BulletViews(bullets)) && PlayerViewOf(player) == old(PlayerViewOf(player))
    {
      ghost var w0 := Sweep(EnemyViews(enemies), [], collectables, 0);
      ghost var shots := BulletViews(bullets);
      live := [];
      var draws: nat := 0;
      ghost var sw := w0;
      var i := 0;
      while i < |bullets|
        invariant 0 <= i <= |bullets|
        invariant BulletViews(bullets) == shots && PlayerViewOf(player) == old(PlayerViewOf(player))
        invariant sw == SweepShots(w0, shots, i, walls, now, draw, sprites.collectable)
        invariant EnemyViews(enemies) == sw.foes && live == sw.live && collectables == sw.pickups && draws == sw.draws
      {
        var b := bullets[i];
        assert BulletViewOf(b) == shots[i];
        var stays;
        stays, draws := SweepStep(b, sw, now, draw, draws);
        sw := SweepOne(sw, shots[i], walls, now, draw, sprites.collectable);
        live := live + [stays];
        i := i + 1;
      }
    }

    /** One bullet of sweep 1; `stays` tells whether it is left in the group. */
    method SweepStep(b: Bullet, ghost before: Sweep, now: int, draw: nat -> LootDraw, draws0: nat)
      returns (stays: bool, draws: nat)
      requires Distinct(enemies) && EnemyViews(enemies) == before.foes
      requires collectables == before.pickups && draws0 == before.draws
      modifies this`collectables, enemies`health, enemies`hitState, enemies`hitStateStart
      ensures var next := SweepOne(before, old(BulletViewOf(b)), walls, now, draw, sprites.collectable);
              EnemyViews(enemies) == next.foes && collectables == next.pickups && draws == next.draws
      ensures stays == !Spent(before.foes, old(BulletViewOf(b)), walls)
      ensures BulletViews(bullets) == old(BulletViews(bullets))
    {
      var struck := false;
      draws := draws0;
      if b.target == TargetEnemy {
        struck, draws := StrikeEnemies(b, before, now, draw, draws);
      }
      var hitWall := SpriteCollideAny(b.rect, walls);
      stays := !(struck || hitWall);
    }

    /**
     * `for enemy in spritecollide(bullet, enemies)`: take_hit(bullet.damage)
     * on every enemy of the group the bullet overlaps, with loot on a kill.
     * `struck` tells whether there was any such enemy.
     */
    method StrikeEnemies(b: Bullet, ghost before: Sweep, now: int, draw: nat -> LootDraw, draws0: nat)
      returns (struck: bool, draws: nat)
      requires Distinct(enemies) && EnemyViews(enemies) == before.foes
      requires collectables == before.pickups && draws0 == before.draws
      modifies this`collectables, enemies`health, enemies`hitState, enemies`hitStateStart
      ensures var sw := StrikeAll(before, BulletViewOf(b), |enemies|, now, draw, sprites.collectable);
              EnemyViews(enemies) == sw.foes && collectables == sw.pickups && draws == sw.draws
      ensures struck <==> StruckAny(before.foes, BulletViewOf(b))
    {
      ghost var s := BulletViewOf(b);
      struck := false;
      draws := draws0;
      var j := 0;
      while j < |enemies|
        invariant 0 <= j <= |enemies|
        invariant BulletViewOf(b) == s
        invariant var sw := StrikeAll(before, s, j, now, draw, sprites.collectable);
                  EnemyViews(enemies) == sw.foes && collectables == sw.pickups && draws == sw.draws
        invariant struck == StruckAny(before.foes[..j], s)
      {
        var hit;
        hit, draws := StrikeStep(j, b, before, now, draw, draws);
        StruckAnyNext(before.foes, s, j);
        struck := struck || hit;
        j := j + 1;
      }
      assert before.foes[..j] == before.foes;
    }

    /** One enemy of `for enemy in spritecollide(bullet, enemies)`: enemy j, if the bullet overlaps it. */
    method StrikeStep(j: nat, b: Bullet, ghost before: Sweep, now: int, draw: nat -> LootDraw, draws0: nat)
      returns (hit: bool, draws: nat)
      requires j < |enemies| == |before.foes| && Distinct(enemies)
      requires var sw := StrikeAll(before, BulletViewOf(b), j, now, draw, sprites.collectable);
               EnemyViews(enemies) == sw.foes && collectables == sw.pickups && draws0 == sw.draws
      modifies this`collectables, enemies`health, enemies`hitState, enemies`hitStateStart
      ensures var sw := StrikeAll(before, BulletViewOf(b), j + 1, now, draw, sprites.collectable);
              EnemyViews(enemies) == sw.foes && collectables == sw.pickups && draws == sw.draws
      ensures hit <==> Struck(BulletViewOf(b), before.foes[j])
    {
      ghost var s := BulletViewOf(b);
      StrikeHitsEveryOverlappedEnemy(before, s, j, now, draw, sprites.collectable);
      ghost var sw := StrikeAll(before, s, j, now, draw, sprites.collectable);
      assert StrikeAll(before, s, j + 1, now, draw, sprites.collectable) == StrikeOne(sw, s, j, now, draw, sprites.collectable);
      var e := enemies[j];
      assert EnemyViewOf(e) == sw.foes[j] == before.foes[j];
      hit := e.health > 0 && Collide(b.rect, e.rect);
      draws := draws0;
      if hit {
        draws := HitEnemy(j, b, sw, now, draw, draws);
      }
    }

    /** enemy.take_hit(bullet.damage) for enemy j of the group, which the bullet overlaps. */
    method HitEnemy(j: nat, b: Bullet, ghost sw: Sweep, now: int, draw: nat -> LootDraw, draws0: nat)
      returns (draws: nat)
      requires j < |enemies| && Distinct(enemies) && EnemyViews(enemies) == sw.foes
      requires collectables == sw.pickups && draws0 == sw.draws
      requires Struck(BulletViewOf(b), sw.foes[j])
      modifies this`collectables, enemies`health, enemies`hitState, enemies`hitStateStart
      ensures var next := StrikeOne(sw, BulletViewOf(b), j, now, draw, sprites.collectable);
              EnemyViews(enemies) == next.foes && collectables == next.pickups && draws == next.draws
    {
      var e := enemies[j];
      ghost var f := EnemyViewOf(e);
      ghost var foes := EnemyViews(enemies);
      var died, loot := e.TakeHit(b.damage, now, draw(draws0), sprites.collectable);
      forall k | 0 <= k < |enemies| && k != j
        ensures EnemyViewOf(enemies[k]) == foes[k]
      {
        DistinctAt(enemies, k, j);
      }
      EnemyViewsUpdate(enemies, foes, j);
      assert EnemyViewOf(e) == f.(status := Hit(f.status, b.damage, now));
      draws := draws0;
      if died {
        draws := draws + 1;
        collectables := collectables + ToSeq(loot);
      }
    }

    /** Sweep 2: every enemy of the group that overlaps the player hits it with its melee damage. */
    method MeleePass(now: int) returns (deaths: nat)
      requires Valid()
      modifies player`health, player`hitState, player`hitStateStart
      ensures Valid()
      ensures var b := Melee(MeleeSweep(old(PlayerViewOf(player)), 0), old(EnemyViews(enemies)), |enemies|, now);
              PlayerViewOf(player) == b.player && deaths == b.deaths
      ensures BulletViews(bullets) == old(BulletViews(bullets))
    {
      ghost var foes := EnemyViews(enemies);
      deaths := 0;
      var k := 0;
      while k < |enemies|
        invariant 0 <= k <= |enemies| && EnemyViews(enemies) == foes
        invariant var b := Melee(MeleeSweep(old(PlayerViewOf(player)), 0), foes, k, now);
                  PlayerViewOf(player) == b.player && deaths == b.deaths
      {
        var e := enemies[k];
        if Collide(player.rect, e.rect) {
          var died := player.TakeHit(e.meleeDmg, now);
          if died {
            deaths := deaths + 1;
          }
        }
        k := k + 1;
      }
    }

    /** Sweep 3: bullets aimed at the player that overlap it hit it and are removed. */
    method AbsorbPass(now: int, deaths0: nat) returns (held: seq<bool>, deaths: nat)
      requires Valid()
      modifies this`bullets, player`health, player`hitState, player`hitStateStart
      ensures Valid()
      ensures var v := Absorb(AbsorbSweep(old(PlayerViewOf(player)), [], deaths0), old(BulletViews(bullets)), |old(bullets)|, now);
              PlayerViewOf(player) == v.player && held == v.held && deaths == v.deaths
              && bullets == Keep(old(bullets), held)
    {
      var group := bullets;
      ghost var shots := BulletViews(group);
      held := [];
      deaths := deaths0;
      var k := 0;
      while k < |group|
        invariant 0 <= k <= |group| && BulletViews(group) == shots
        invariant var v := Absorb(AbsorbSweep(old(PlayerViewOf(player)), [], deaths0), shots, k, now);
                  PlayerViewOf(player) == v.player && held == v.held && deaths == v.deaths
      {
        var b := group[k];
        if Collide(player.rect, b.rect) && b.target == TargetPlayer {
          var died := player.TakeHit(b.damage, now);
          if died {
            deaths := deaths + 1;
          }
          held := held + [false];
        } else {
          held := held + [true];
        }
        k := k + 1;
      }
      bullets := Filter(group, held);
    }

    /** Sweep 4: every collectable overlapping the player is consumed. */
    method GatherPass()
      requires Valid()
      modifies this`collectables, player`health, player`damage
      ensures Valid()
      ensures var h := Gather(PickupSweep(old(PlayerViewOf(player)), []), old(collectables), |old(collectables)|);
              PlayerViewOf(player) == h.player && collectables == h.left
    {
      var items := collectables;
      var left := [];
      var k := 0;
      while k < |items|
        invariant 0 <= k <= |items|
        invariant var h := Gather(PickupSweep(old(PlayerViewOf(player)), []), items, k);
                  PlayerViewOf(player) == h.player && left == h.left
      {
        var c := items[k];
        if Collide(player.rect, c.rect) {
          player.Heal(c.rewardHealth);
          player.damage := player.damage + c.rewardDamage;
        } else {
          left := left + [c];
        }
        k := k + 1;
      }
      collectables := left;
    }

    /** The enemies Enemy(game, x, y) makes at `spots`, in order, the i-th with timer(i) as its action timer. */
    ghost function SpawnedEnemies(spots: seq<Point>, now: int, timer: nat -> int): (rs: seq<SpawnedEnemy>)
      ensures |rs| == |spots|
    {
      seq(|spots|, i requires 0 <= i < |spots| =>
        SpawnedEnemy(At(spots[i].x, spots[i].y, sprites.enemy), Vitals(ENEMY_HEALTH, false, 0),
                     Behaviour(now, false, (0, 0)), timer(i)))
    }

    /**
     * The groups hold what `p` says: its walls, an enemy fresh from
     * Enemy(game, x, y) at each of its enemy spots (full health, not in
     * hit-state, standing still, last_action = now, the i-th with timer(i)
     * as its action timer; its other settings are class constants), a
     * collectable at each of its pickup spots (the k-th drawing bonus(k)), in order, and the
     * player at its rectangle.
     */
    ghost predicate Holds(p: Placement, now: int, timer: nat -> int, bonus: nat -> bool)
      reads this, player, enemies
    {
      && player != null && Distinct(enemies)
      && Board(walls, SpawnedViews(enemies), collectables, player.rect)
         == Board(p.walls, SpawnedEnemies(p.enemies, now, timer), Pickups(p.pickups, sprites.collectable, bonus), p.player)
    }

    /** The body of the spawn loop for the tile at (x, y) holding `token`. */
    method SpawnTile(token: string, x: int, y: int, ghost p: Placement,
                     now: int, timer: nat -> int, bonus: nat -> bool)
      requires Holds(p, now, timer, bonus)
      requires forall k :: 750 <= timer(k) <= 1500
      modifies this`walls, this`enemies, this`collectables, player`rect
      ensures Holds(PlaceAll(p, ToSeq(TileSpawn(token, x, y)), sprites.wall), now, timer, bonus)
    {
      if token == "W" {
        walls := walls + [At(x, y, sprites.wall)];
        PlaceOne(p, WallAt(Point(x, y)), sprites.wall);
      } else if token == "E" {
        ghost var roster := SpawnedViews(enemies);
        var e := new Enemy(x, y, sprites.enemy, now, timer(|enemies|));
        assert SpawnedViews(enemies) == roster;
        enemies := enemies + [e];
        assert enemies[..|enemies| - 1] == old(enemies);
        assert SpawnedViews(enemies) == roster + [SpawnedOf(e)];
        assert SpawnedEnemies(p.enemies + [Point(x, y)], now, timer) == SpawnedEnemies(p.enemies, now, timer) + [SpawnedOf(e)];
        PlaceOne(p, EnemyAt(Point(x, y)), sprites.wall);
      } else if token == "P" {
        player.rect := player.rect.(x := x, y := y);
        PlaceOne(p, PlayerAt(Point(x, y)), sprites.wall);
      } else if token == "C" {
        collectables := collectables + [NewCollectable(x, y, sprites.collectable, bonus(|collectables|))];
        PlaceOne(p, CollectableAt(Point(x, y)), sprites.wall);
        assert collectables == Pickups(p.pickups + [Point(x, y)], sprites.collectable, bonus);
      }
    }

    /**
     * The spawn loop's body for row gy of column gx, at pixel (x, y): it reads
     * level_grid[grid_y][grid_x] and returns false, changing nothing, where
     * that raises IndexError.
     */
    method SpawnCell(grid: Grid, gx: nat, gy: nat, x: int, y: int, ghost p: Placement,
                     now: int, timer: nat -> int, bonus: nat -> bool) returns (read: bool)
      requires x == Pixel(gx, tileSize) && y == Pixel(gy, tileSize)
      requires gy <= |grid| && forall k :: 0 <= k < gy ==> gx < |grid[k]|
      requires Holds(PlaceAll(p, Column(grid, gx, gy, tileSize), sprites.wall), now, timer, bonus)
      requires forall k :: 750 <= timer(k) <= 1500
      modifies this`walls, this`enemies, this`collectables, player`rect
      ensures read <==> gy < |grid| && gx < |grid[gy]|
      ensures read ==> forall k :: 0 <= k < gy + 1 ==> gx < |grid[k]|
      ensures read ==> Holds(PlaceAll(p, Column(grid, gx, gy + 1, tileSize), sprites.wall), now, timer, bonus)
    {
      if gy >= |grid| || gx >= |grid[gy]| {
        return false;
      }
      read := true;
      ghost var before := Column(grid, gx, gy, tileSize);
      var token := grid[gy][gx];
      SpawnTile(token, x, y, PlaceAll(p, before, sprites.wall), now, timer, bonus);
      ColumnNext(grid, gx, gy, tileSize);
      PlaceAllAppend(p, before, ToSeq(TileSpawn(token, x, y)), sprites.wall);
    }

    /**
     * The inner loop of play_level for column gx at pixel x: y over
     * range(0, game_height, tile_size), that is Pixel(gy, tile_size) for gy
     * below `rows` (StepsCount). It returns false where the code raises
     * IndexError, at the first row that is missing or too short; otherwise
     * the groups hold the spawns of one more column.
     */
    method SpawnColumn(grid: Grid, gx: nat, x: int, rows: nat, ghost p: Placement,
                       now: int, timer: nat -> int, bonus: nat -> bool) returns (ok: bool)
      requires x == Pixel(gx, tileSize)
      requires Holds(p, now, timer, bonus)
      requires forall k :: 750 <= timer(k) <= 1500
      modifies this`walls, this`enemies, this`collectables, player`rect
      ensures ok <==> rows <= |grid| && forall gy :: 0 <= gy < rows ==> gx < |grid[gy]|
      ensures ok ==> Holds(PlaceAll(p, Column(grid, gx, rows, tileSize), sprites.wall), now, timer, bonus)
    {
      var y := 0;
      var gy := 0;
      while gy < rows
        invariant y == Pixel(gy, tileSize)
        invariant gy <= rows && gy <= |grid| && forall k :: 0 <= k < gy ==> gx < |grid[k]|
        invariant Holds(PlaceAll(p, Column(grid, gx, gy, tileSize), sprites.wall), now, timer, bonus)
      {
        var read := SpawnCell(grid, gx, gy, x, y, p, now, timer, bonus);
        if !read {
          return false;
        }
        y, gy := y + tileSize, gy + 1;
      }
      ok := true;
    }

    /**
     * new_game: a fresh player (its rectangle is `bounds`, the bounding
     * rectangle of its image) at full health, a fresh level manager at the
     * first level, then play_level.
     */
    method NewGame(bounds: Rect, load: Level -> Grid, now: int, timer: nat -> int, bonus: nat -> bool)
      returns (ok: bool)
      requires tileSize > 0
      requires forall k :: 750 <= timer(k) <= 1500
      modifies this`player, this`levelManager, this`enemies, this`bullets, this`walls, this`collectables, this`state
      ensures fresh(player) && fresh(levelManager)
      ensures levelManager.currentLevel == 0 && levelManager.levels == LEVELS
      ensures player.health == player.maxHealth == PLAYER_MAX_HEALTH && player.damage == PLAYER_DAMAGE
      ensures !player.hitState && player.canShoot
      ensures var grid := load(LEVELS[0]);
              var cols, rows := Steps(gameWidth, tileSize), Steps(gameHeight, tileSize);
              && (ok <==> Covers(grid, cols, rows))
              && (!ok ==> state == old(state))
              && (ok ==> && Valid() && state == Playing && bullets == []
                         && Holds(Expected(bounds, Layout(grid, cols, rows, tileSize), sprites.wall), now, timer, bonus))
    {
      player := new Player(bounds);
      levelManager := new LevelManager();
      ok := PlayLevel(load, now, timer, bonus);
    }

    /**
     * The cleared-level branch of the game loop: with enemies left nothing
     * happens; once the enemy group is empty, the final level is the win and
     * any other level moves the counter on and plays the next level, as
     * AfterClear says.
     */
    method AdvanceIfCleared(load: Level -> Grid, now: int, timer: nat -> int, bonus: nat -> bool) returns (ok: bool)
      requires Valid()
      requires forall k :: 750 <= timer(k) <= 1500
      modifies this`state, levelManager`currentLevel, this`enemies, this`bullets, this`walls, this`collectables
      modifies player`rect
      ensures old(enemies) != [] ==>
                && ok && state == old(state) && levelManager.currentLevel == old(levelManager.currentLevel)
                && enemies == old(enemies) && bullets == old(bullets) && walls == old(walls)
                && collectables == old(collectables) && player.rect == old(player.rect)
      ensures old(enemies) == [] ==>
                match AfterClear(old(levelManager.currentLevel), |levelManager.levels|)
                case Won =>
                  && ok && state == Win && levelManager.currentLevel == old(levelManager.currentLevel)
                  && enemies == old(enemies) && bullets == old(bullets) && walls == old(walls)
                  && collectables == old(collectables) && player.rect == old(player.rect)
                case Next(level) =>
                  && levelManager.currentLevel == level && 0 <= level < |levelManager.levels|
                  && var grid := load(levelManager.levels[level]);
                     var cols, rows := Steps(gameWidth, tileSize), Steps(gameHeight, tileSize);
                     && (ok <==> Covers(grid, cols, rows))
                     && (!ok ==> state == old(state))
                     && (ok ==> && Valid() && state == Playing && bullets == []
                                && Holds(Expected(old(player.rect), Layout(grid, cols, rows, tileSize), sprites.wall),
                                         now, timer, bonus))
    {
      ok := true;
      if |enemies| == 0 {
        if levelManager.IsFinalLevel() {
          state := Win;
          return;
        }
        levelManager.NextLevel();
        ok := PlayLevel(load, now, timer, bonus);
      }
    }

    /**
     * The spawn loop of play_level over the grid `load` reads for the
     * current level: x over range(0, game_width, tile_size) and, inside, y
     * over range(0, game_height, tile_size). StepsCount shows these visit
     * x = Pixel(gx, tile_size) for gx below `cols` and y = Pixel(gy,
     * tile_size) for gy below `rows`, which is how the loops count. It returns false, with the
     * groups partly filled and the state unchanged, where the code raises
     * IndexError on a row or column the grid lacks.
     */
    method PlayLevel(load: Level -> Grid, now: int, timer: nat -> int, bonus: nat -> bool) returns (ok: bool)
      requires player != null && tileSize > 0 && 0 <= levelManager.currentLevel < |levelManager.levels|
      requires forall k :: 750 <= timer(k) <= 1500
      modifies this`enemies, this`bullets, this`walls, this`collectables, this`state, player`rect
      ensures var cols := Steps(gameWidth, tileSize);
              var rows := Steps(gameHeight, tileSize);
              var grid := load(levelManager.GetLevel());
              && (ok <==> Covers(grid, cols, rows))
              && (!ok ==> state == old(state))
              && (ok ==> && Valid() && state == Playing && bullets == []
                         && Holds(Expected(old(player.rect), Layout(grid, cols, rows, tileSize), sprites.wall),
                                  now, timer, bonus))
    {
      enemies, bullets, walls, collectables := [], [], [], [];
      var grid := load(levelManager.GetLevel());
      var cols, rows := Steps(gameWidth, tileSize), Steps(gameHeight, tileSize);
      ok := SpawnGrid(grid, cols, rows, now, timer, bonus);
      if ok {
        forall e | e in enemies
          ensures e.health > 0
        {
          var i :| 0 <= i < |enemies| && enemies[i] == e;
          assert SpawnedViews(enemies)[i] == SpawnedOf(e);
        }
        PlaceAllSorted(old(player.rect), Layout(grid, cols, rows, tileSize), sprites.wall);
        state := Playing;
      }
    }

    /** The two loops of play_level over `cols` columns and `rows` rows of the grid, from empty groups. */
    method SpawnGrid(grid: Grid, cols: nat, rows: nat, now: int, timer: nat -> int, bonus: nat -> bool)
      returns (ok: bool)
      requires player != null && walls == [] && enemies == [] && collectables == []
      requires forall k :: 750 <= timer(k) <= 1500
      modifies this`enemies, this`walls, this`collectables, player`rect
      ensures ok <==> Covers(grid, cols, rows)
      ensures ok ==> Holds(PlaceAll(Unplaced(old(player.rect)), Layout(grid, cols, rows, tileSize), sprites.wall),
                           now, timer, bonus)
    {
      ghost var start := Unplaced(player.rect);
      var x := 0;
      var gx := 0;
      while gx < cols
        invariant x == Pixel(gx, tileSize)
        invariant gx <= cols
        invariant Covers(grid, gx, rows)
        invariant Holds(PlaceAll(start, Layout(grid, gx, rows, tileSize), sprites.wall), now, timer, bonus)
      {
        var filled := SpawnNextColumn(grid, gx, x, rows, start, now, timer, bonus);
        if !filled {
          CoversNot(grid, gx, cols, rows);
          return false;
        }
        x, gx := x + tileSize, gx + 1;
      }
      ok := true;
    }

    /** One more column of the outer loop: the groups go from the first gx columns' spawns to the first gx + 1 columns'. */
    method SpawnNextColumn(grid: Grid, gx: nat, x: int, rows: nat, ghost start: Placement,
                           now: int, timer: nat -> int, bonus: nat -> bool) returns (ok: bool)
      requires x == Pixel(gx, tileSize) && Covers(grid, gx, rows)
      requires Holds(PlaceAll(start, Layout(grid, gx, rows, tileSize), sprites.wall), now, timer, bonus)
      requires forall k :: 750 <= timer(k) <= 1500
      modifies this`walls, this`enemies, this`collectables, player`rect
      ensures ok <==> rows <= |grid| && forall gy :: 0 <= gy < rows ==> gx < |grid[gy]|
      ensures ok ==> && Covers(grid, gx + 1, rows)
                     && Holds(PlaceAll(start, Layout(grid, gx + 1, rows, tileSize), sprites.wall), now, timer, bonus)
    {
      ghost var spawned := Layout(grid, gx, rows, tileSize);
      ok := SpawnColumn(grid, gx, x, rows, PlaceAll(start, spawned, sprites.wall), now, timer, bonus);
      if ok {
        CoversNext(grid, gx, rows);
        PlaceAllAppend(start, spawned, Column(grid, gx, rows, tileSize), sprites.wall);
      }
    }
  }
}
