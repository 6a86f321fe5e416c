/**
 * Game.check_collisions as a function on snapshots of the sprites. The pass
 * runs five sweeps in a fixed order:
 *   1. every bullet: if it targets enemies, take_hit(bullet.damage) on every
 *      enemy still in the group that it overlaps (a killed enemy drops its
 *      loot and leaves the group); the bullet is removed if it overlapped an
 *      enemy or overlaps any wall;
 *   2. every enemy overlapping the player: player.take_hit(melee_dmg);
 *   3. every bullet overlapping the player: if it targets the player,
 *      player.take_hit(bullet.damage) and the bullet is removed;
 *   4. every collectable overlapping the player is removed and heals the
 *      player by reward_health and adds reward_damage to its damage.
 * `foes` and the first sweep's `live` flags are aligned with the enemy and
 * bullet groups as the pass found them; an enemy is in the enemy group while
 * its health is positive, since take_hit removes it as soon as it is not.
 */
module Collisions {
  import opened Geometry
  import opened Combat
  import opened Wrappers
  import opened Groups
  import opened Entities

  /** What the pass reads and changes of an enemy. */
  datatype EnemyView = EnemyView(rect: Rect, status: Vitals, meleeDmg: int, rewardChance: real)

  /** What the pass reads of a bullet. */
  datatype BulletView = BulletView(rect: Rect, damage: int, target: Target)

  /** What the pass reads and changes of the player. */
  datatype PlayerView = PlayerView(rect: Rect, status: Vitals, maxHealth: int, damage: int)

  predicate InGroup(f: EnemyView)
  {
    f.status.health > 0
  }

  /** Membership of the enemy group, one flag per enemy. */
  function Alive(foes: seq<EnemyView>): seq<bool>
  {
    seq(|foes|, j requires 0 <= j < |foes| => InGroup(foes[j]))
  }

  /** How many of the enemies have left the group. */
  function Fallen(foes: seq<EnemyView>): nat
  {
    if foes == [] then 0
    else Fallen(foes[..|foes| - 1]) + (if InGroup(foes[|foes| - 1]) then 0 else 1)
  }

  // ---------------------------------------------------------------------
  // Sweep 1: bullets against enemies and walls

  /** The state of the first sweep; `draws` counts the random.random() values drop_loot has used. */
  datatype Sweep = Sweep(foes: seq<EnemyView>, live: seq<bool>, pickups: seq<Collectable>, draws: nat)

  /** The bullet overlaps an enemy that is still in the group. */
  predicate Struck(s: BulletView, f: EnemyView)
  {
    InGroup(f) && Collide(s.rect, f.rect)
  }

  predicate StruckAny(foes: seq<EnemyView>, s: BulletView)
  {
    exists j :: 0 <= j < |foes| && Struck(s, foes[j])
  }

  /** Looking at one more enemy finds a struck one exactly when it is struck or one was found before. */
  lemma StruckAnyNext(foes: seq<EnemyView>, s: BulletView, j: nat)
    requires j < |foes|
    ensures StruckAny(foes[..j + 1], s) <==> StruckAny(foes[..j], s) || Struck(s, foes[j])
  {
    assert foes[..j + 1] == foes[..j] + [foes[j]];
    if StruckAny(foes[..j + 1], s) && !Struck(s, foes[j]) {
      var k :| 0 <= k < j + 1 && Struck(s, foes[..j + 1][k]);
      assert foes[..j][k] == foes[k];
    }
    if StruckAny(foes[..j], s) {
      var k :| 0 <= k < j && Struck(s, foes[..j][k]);
      assert foes[..j + 1][k] == foes[k];
    }
  }

  /** The bullet is removed by the first sweep. */
  predicate Spent(foes: seq<EnemyView>, s: BulletView, walls: seq<Rect>)
  {
    (s.target == TargetEnemy && StruckAny(foes, s)) || CollidesAny(s.rect, walls)
  }

  /** `enemy.take_hit(bullet.damage)` for enemy j, when the bullet overlaps it. */
  function StrikeOne(w: Sweep, s: BulletView, j: nat, now: int, draw: nat -> LootDraw, lootSize: Size): Sweep
    requires j < |w.foes|
  {
    var f := w.foes[j];
    if Struck(s, f) then
      var hit := w.(foes := w.foes[j := f.(status := Hit(f.status, s.damage, now))]);
      if Fatal(f.status, s.damage) then
        hit.(pickups := w.pickups + ToSeq(Loot(f.rect, f.rewardChance, draw(w.draws), lootSize)),
             draws := w.draws + 1)
      else hit
    else w
  }

  /** The bullet against enemies 0 .. n - 1. */
  function StrikeAll(w: Sweep, s: BulletView, n: nat, now: int, draw: nat -> LootDraw, lootSize: Size): (r: Sweep)
    requires n <= |w.foes|
    ensures |r.foes| == |w.foes| && r.live == w.live
  {
    if n == 0 then w
    else StrikeOne(StrikeAll(w, s, n - 1, now, draw, lootSize), s, n - 1, now, draw, lootSize)
  }

  /** One bullet of the first sweep. */
  function SweepOne(w: Sweep, s: BulletView, walls: seq<Rect>, now: int, draw: nat -> LootDraw, lootSize: Size): (r: Sweep)
    ensures |r.foes| == |w.foes| && |r.live| == |w.live| + 1
  {
    var struck := if s.target == TargetEnemy then StrikeAll(w, s, |w.foes|, now, draw, lootSize) else w;
    struck.(live := w.live + [!Spent(w.foes, s, walls)])
  }

  /** Bullets 0 .. n - 1 of the first sweep. */
  function SweepShots(w: Sweep, shots: seq<BulletView>, n: nat, walls: seq<Rect>, now: int,
                      draw: nat -> LootDraw, lootSize: Size): (r: Sweep)
    requires n <= |shots|
    ensures |r.foes| == |w.foes| && |r.live| == |w.live| + n
  {
    if n == 0 then w
    else SweepOne(SweepShots(w, shots, n - 1, walls, now, draw, lootSize), shots[n - 1], walls, now, draw, lootSize)
  }

  // ---------------------------------------------------------------------
  // Sweep 2: enemies against the player

  /** The player and the number of PLAYERDEADEVENT posts so far. */
  datatype MeleeSweep = MeleeSweep(player: PlayerView, deaths: nat)

  /** A take_hit on the player; a fatal one posts a death event. */
  function Wound(b: MeleeSweep, damage: int, now: int): MeleeSweep
  {
    MeleeSweep(b.player.(status := Hit(b.player.status, damage, now)),
         b.deaths + (if Fatal(b.player.status, damage) then 1 else 0))
  }

  function Contact(b: MeleeSweep, f: EnemyView, now: int): MeleeSweep
  {
    if Collide(b.player.rect, f.rect) then Wound(b, f.meleeDmg, now) else b
  }

  /** Enemies 0 .. n - 1 of the group against the player. */
  function Melee(b: MeleeSweep, group: seq<EnemyView>, n: nat, now: int): MeleeSweep
    requires n <= |group|
  {
    if n == 0 then b else Contact(Melee(b, group, n - 1, now), group[n - 1], now)
  }

  // ---------------------------------------------------------------------
  // Sweep 3: bullets against the player

  /** `held` flags the bullets of the group that survive this sweep. */
  datatype AbsorbSweep = AbsorbSweep(player: PlayerView, held: seq<bool>, deaths: nat)

  /** Only a bullet aimed at the player hurts it and is removed. */
  predicate HitsPlayer(player: PlayerView, s: BulletView)
  {
    Collide(player.rect, s.rect) && s.target == TargetPlayer
  }

  function Catch(v: AbsorbSweep, s: BulletView, now: int): AbsorbSweep
  {
    if HitsPlayer(v.player, s) then
      var b := Wound(MeleeSweep(v.player, v.deaths), s.damage, now);
      AbsorbSweep(b.player, v.held + [false], b.deaths)
    else v.(held := v.held + [true])
  }

  /** Bullets 0 .. n - 1 of the group against the player. */
  function Absorb(v: AbsorbSweep, group: seq<BulletView>, n: nat, now: int): (r: AbsorbSweep)
    requires n <= |group|
    ensures |r.held| == |v.held| + n
  {
    if n == 0 then v else Catch(Absorb(v, group, n - 1, now), group[n - 1], now)
  }

  // ---------------------------------------------------------------------
  // Sweep 4: collectables against the player

  datatype PickupSweep = PickupSweep(player: PlayerView, left: seq<Collectable>)

  /** player.heal(reward_health); player.damage += reward_damage. */
  function PickUp(player: PlayerView, c: Collectable): PlayerView
  {
    player.(status := player.status.(health := Healed(player.status.health, c.rewardHealth, player.maxHealth)),
          damage := player.damage + c.rewardDamage)
  }

  /** Collectables 0 .. n - 1 of the group against the player. */
  function Gather(h: PickupSweep, cs: seq<Collectable>, n: nat): PickupSweep
    requires n <= |cs|
  {
    if n == 0 then h
    else
      var g := Gather(h, cs, n - 1);
      if Collide(g.player.rect, cs[n - 1].rect) then g.(player := PickUp(g.player, cs[n - 1]))
      else g.(left := g.left + [cs[n - 1]])
  }

  // ---------------------------------------------------------------------
  // The whole pass

  /**
   * `live` is aligned with the bullets before the pass, `held` with the
   * bullets left after the first sweep; `pickups` is the collectable group.
   */
  datatype Outcome = Outcome(player: PlayerView, foes: seq<EnemyView>, live: seq<bool>, held: seq<bool>,
                             pickups: seq<Collectable>, deathEvents: nat)

  /** Sweep 1 over the whole bullet group, from the enemies and collectables as they are. */
  function FirstSweep(foes: seq<EnemyView>, shots: seq<BulletView>, walls: seq<Rect>, pickups: seq<Collectable>,
                      now: int, draw: nat -> LootDraw, lootSize: Size): Sweep
  {
    SweepShots(Sweep(foes, [], pickups, 0), shots, |shots|, walls, now, draw, lootSize)
  }

  /** What sweeps 2, 3 and 4 leave: the player, the flags of the bullets kept, the collectables left, the deaths posted. */
  datatype Encounter = Encounter(player: PlayerView, held: seq<bool>, left: seq<Collectable>, deaths: nat)

  /** Sweeps 2, 3 and 4 over the groups as sweep 1 and its removals left them. */
  function PlayerSweeps(player: PlayerView, group: seq<EnemyView>, flying: seq<BulletView>, pickups: seq<Collectable>, now: int): Encounter
  {
    var melee := Melee(MeleeSweep(player, 0), group, |group|, now);
    var volley := Absorb(AbsorbSweep(melee.player, [], melee.deaths), flying, |flying|, now);
    var haul := Gather(PickupSweep(volley.player, []), pickups, |pickups|);
    Encounter(haul.player, volley.held, haul.left, volley.deaths)
  }

  function Resolve(player: PlayerView, foes: seq<EnemyView>, shots: seq<BulletView>, walls: seq<Rect>, pickups: seq<Collectable>,
                   now: int, draw: nat -> LootDraw, lootSize: Size): (r: Outcome)
    ensures |r.foes| == |foes| && |r.live| == |shots| && |r.held| == |Keep(shots, r.live)|
  {
    var swept := FirstSweep(foes, shots, walls, pickups, now, draw, lootSize);
    var rest := PlayerSweeps(player, Keep(swept.foes, Alive(swept.foes)), Keep(shots, swept.live), swept.pickups, now);
    Outcome(rest.player, swept.foes, swept.live, rest.held, rest.left, rest.deaths)
  }

  // ---------------------------------------------------------------------
  // Properties

  /** Replacing one enemy changes the fallen count by that enemy's change alone. */
  lemma {:induction false} FallenUpdate(foes: seq<EnemyView>, j: nat, f: EnemyView)
    requires j < |foes|
    ensures Fallen(foes[j := f]) + (if InGroup(foes[j]) then 0 else 1) == Fallen(foes) + (if InGroup(f) then 0 else 1)
  {
    var n := |foes| - 1;
    if j == n {
      assert foes[j := f][..n] == foes[..n];
    } else {
      FallenUpdate(foes[..n], j, f);
      assert foes[j := f][..n] == foes[..n][j := f];
    }
  }

  lemma {:induction false} FallenBound(foes: seq<EnemyView>)
    ensures Fallen(foes) <= |foes|
  {
    if foes != [] {
      FallenBound(foes[..|foes| - 1]);
    }
  }

  /**
   * One bullet aimed at enemies: every enemy still in the group that it
   * overlaps takes one take_hit(bullet.damage), and every other enemy is
   * left as it is.
   */
  lemma {:induction false} StrikeHitsEveryOverlappedEnemy(w: Sweep, s: BulletView, n: nat, now: int,
                                                         draw: nat -> LootDraw, lootSize: Size)
    requires n <= |w.foes|
    ensures var r := StrikeAll(w, s, n, now, draw, lootSize);
            forall j :: 0 <= j < |w.foes| ==>
              r.foes[j] == if j < n && Struck(s, w.foes[j])
                           then w.foes[j].(status := Hit(w.foes[j].status, s.damage, now))
                           else w.foes[j]
  {
    if n > 0 {
      StrikeHitsEveryOverlappedEnemy(w, s, n - 1, now, draw, lootSize);
    }
  }

  /** One bullet aimed at enemies draws loot exactly once per enemy it kills, and adds at most one collectable each. */
  lemma {:induction false} StrikeLoot(w: Sweep, s: BulletView, n: nat, now: int, draw: nat -> LootDraw, lootSize: Size)
    requires n <= |w.foes|
    ensures var r := StrikeAll(w, s, n, now, draw, lootSize);
            && r.draws >= w.draws
            && Fallen(r.foes) == Fallen(w.foes) + (r.draws - w.draws)
            && w.pickups <= r.pickups
            && |r.pickups| - |w.pickups| <= r.draws - w.draws
  {
    if n > 0 {
      var m := n - 1;
      StrikeLoot(w, s, m, now, draw, lootSize);
      StrikeHitsEveryOverlappedEnemy(w, s, m, now, draw, lootSize);
      var p := StrikeAll(w, s, m, now, draw, lootSize);
      var f := p.foes[m];
      assert f == w.foes[m];
      if Struck(s, f) {
        var g := f.(status := Hit(f.status, s.damage, now));
        FallenUpdate(p.foes, m, g);
        assert InGroup(g) <==> !Fatal(f.status, s.damage);
      }
    }
  }

  /**
   * The first sweep removes bullet i exactly when, at its turn, it struck an
   * enemy (if aimed at enemies) or it overlaps a wall; later bullets do not
   * change that.
   */
  lemma {:induction false} SweepRemovals(w: Sweep, shots: seq<BulletView>, n: nat, i: nat, walls: seq<Rect>, now: int,
                                         draw: nat -> LootDraw, lootSize: Size)
    requires i < n <= |shots| && w.live == []
    ensures SweepShots(w, shots, n, walls, now, draw, lootSize).live[i]
            == !Spent(SweepShots(w, shots, i, walls, now, draw, lootSize).foes, shots[i], walls)
  {
    var p := SweepShots(w, shots, n - 1, walls, now, draw, lootSize);
    assert SweepShots(w, shots, n, walls, now, draw, lootSize).live == p.live + [!Spent(p.foes, shots[n - 1], walls)];
    if i < n - 1 {
      SweepRemovals(w, shots, n - 1, i, walls, now, draw, lootSize);
    }
  }

  /**
   * The first sweep keeps every enemy's rectangle, does not touch enemies
   * already out of the group, and draws loot once per enemy it kills,
   * adding at most one collectable each.
   */
  lemma {:induction false} SweepKillsAndDrops(w: Sweep, shots: seq<BulletView>, n: nat, walls: seq<Rect>, now: int,
                                              draw: nat -> LootDraw, lootSize: Size)
    requires n <= |shots|
    ensures var r := SweepShots(w, shots, n, walls, now, draw, lootSize);
            && (forall j :: 0 <= j < |w.foes| ==>
                  r.foes[j].rect == w.foes[j].rect && r.foes[j].meleeDmg == w.foes[j].meleeDmg)
            && (forall j :: 0 <= j < |w.foes| && !InGroup(w.foes[j]) ==> r.foes[j] == w.foes[j])
            && r.draws >= w.draws
            && Fallen(r.foes) == Fallen(w.foes) + (r.draws - w.draws)
            && w.pickups <= r.pickups
            && |r.pickups| - |w.pickups| <= r.draws - w.draws
  {
    if n > 0 {
      SweepKillsAndDrops(w, shots, n - 1, walls, now, draw, lootSize);
      SweepOneEffect(SweepShots(w, shots, n - 1, walls, now, draw, lootSize), shots[n - 1], walls, now, draw, lootSize);
    }
  }

  /** One bullet of the first sweep, in the terms SweepRemovals needs. */
  lemma {:induction false} SweepOneEffect(p: Sweep, s: BulletView, walls: seq<Rect>, now: int,
                                          draw: nat -> LootDraw, lootSize: Size)
    ensures var r := SweepOne(p, s, walls, now, draw, lootSize);
            && r.live == p.live + [!Spent(p.foes, s, walls)]
            && (forall j :: 0 <= j < |p.foes| ==>
                  r.foes[j].rect == p.foes[j].rect && r.foes[j].meleeDmg == p.foes[j].meleeDmg)
            && (forall j :: 0 <= j < |p.foes| && !InGroup(p.foes[j]) ==> r.foes[j] == p.foes[j])
            && r.draws >= p.draws
            && Fallen(r.foes) == Fallen(p.foes) + (r.draws - p.draws)
            && p.pickups <= r.pickups
            && |r.pickups| - |p.pickups| <= r.draws - p.draws
  {
    if s.target == TargetEnemy {
      StrikeHitsEveryOverlappedEnemy(p, s, |p.foes|, now, draw, lootSize);
      StrikeLoot(p, s, |p.foes|, now, draw, lootSize);
    }
  }

  /** Sweep 2 does nothing to a player in hit-state. */
  lemma {:induction false} MeleeFrozenByHitState(b: MeleeSweep, group: seq<EnemyView>, n: nat, now: int)
    requires n <= |group| && b.player.status.hitState
    ensures Melee(b, group, n, now) == b
  {
    if n > 0 {
      MeleeFrozenByHitState(b, group, n - 1, now);
    }
  }

  /** Sweep 2 changes the player's health and hit-state only. */
  lemma {:induction false} MeleeKeepsPlace(b: MeleeSweep, group: seq<EnemyView>, n: nat, now: int)
    requires n <= |group|
    ensures var r := Melee(b, group, n, now);
            r.player.rect == b.player.rect && r.player.damage == b.player.damage && r.player.maxHealth == b.player.maxHealth
            && r.deaths >= b.deaths
  {
    if n > 0 {
      MeleeKeepsPlace(b, group, n - 1, now);
    }
  }

  /** The enemies 0 .. n - 1 of the group that overlap the player. */
  function Touching(rect: Rect, group: seq<EnemyView>, n: nat): nat
    requires n <= |group|
  {
    if n == 0 then 0
    else Touching(rect, group, n - 1) + (if Collide(rect, group[n - 1].rect) then 1 else 0)
  }

  /**
   * Sweep 2 with enemies that all hit for d. Nobody touching: nothing
   * changes. A player that survives the first contact loses d once, however
   * many enemies touch it, and enters the hit-state at `now`. A player that
   * does not survive it gets no hit-state and so posts one death event per
   * enemy touching it.
   */
  lemma {:induction false} MeleeCostsOneHit(b: MeleeSweep, group: seq<EnemyView>, n: nat, now: int, d: int)
    requires n <= |group| && d >= 0
    requires forall k :: 0 <= k < |group| ==> group[k].meleeDmg == d
    ensures var r := Melee(b, group, n, now);
            && r.player.rect == b.player.rect && r.player.damage == b.player.damage
            && (Touching(b.player.rect, group, n) == 0 ==> r == b)
            && (Touching(b.player.rect, group, n) > 0 && !b.player.status.hitState && b.player.status.health > d ==>
                  r.player.status == Vitals(b.player.status.health - d, true, now) && r.deaths == b.deaths)
            && (!b.player.status.hitState && b.player.status.health <= d ==>
                  r.deaths == b.deaths + Touching(b.player.rect, group, n)
                  && r.player.status.health == b.player.status.health - d * Touching(b.player.rect, group, n)
                  && !r.player.status.hitState)
  {
    if n > 0 {
      MeleeCostsOneHit(b, group, n - 1, now, d);
      var p := Melee(b, group, n - 1, now);
      var t := Touching(b.player.rect, group, n - 1);
      if !b.player.status.hitState && b.player.status.health <= d {
        DamageAddsUp(d, t);
      }
    }
  }

  /** t equal hits of d add up to a non-negative loss, and one more adds d. */
  lemma DamageAddsUp(d: int, t: nat)
    requires d >= 0
    ensures d * t >= 0 && d * (t + 1) == d * t + d
  {
  }

  /**
   * Sweep 3: bullet k of the group survives exactly when it is not an enemy
   * bullet overlapping the player; the player's own bullets are never
   * touched, and a player in hit-state takes no damage.
   */
  lemma {:induction false} OwnBulletsPassThroughPlayer(v: AbsorbSweep, group: seq<BulletView>, n: nat, now: int)
    requires n <= |group| && v.held == []
    ensures var r := Absorb(v, group, n, now);
            && r.player.rect == v.player.rect
            && (forall k :: 0 <= k < n ==> (r.held[k] <==> !HitsPlayer(v.player, group[k])))
            && (forall k :: 0 <= k < n && group[k].target == TargetEnemy ==> r.held[k])
            && (v.player.status.hitState ==> r.player == v.player && r.deaths == v.deaths)
  {
    if n > 0 {
      OwnBulletsPassThroughPlayer(v, group, n - 1, now);
    }
  }

  /** The flags of the collectables the player does not overlap. */
  function Missed(rect: Rect, cs: seq<Collectable>): (missed: seq<bool>)
    ensures |missed| == |cs|
  {
    seq(|cs|, k requires 0 <= k < |cs| => !Collide(rect, cs[k].rect))
  }

  /** Sweep 4 removes exactly the collectables the player overlaps and keeps the rest in order. */
  lemma {:induction false} PickupsAreConsumed(h: PickupSweep, cs: seq<Collectable>, n: nat)
    requires n <= |cs|
    ensures var r := Gather(h, cs, n);
            && r.left == h.left + Keep(cs[..n], Missed(h.player.rect, cs[..n]))
            && r.player.rect == h.player.rect && r.player.maxHealth == h.player.maxHealth
            && r.player.status.hitState == h.player.status.hitState
  {
    if n > 0 {
      PickupsAreConsumed(h, cs, n - 1);
      assert cs[..n] == cs[..n - 1] + [cs[n - 1]];
      assert Missed(h.player.rect, cs[..n]) == Missed(h.player.rect, cs[..n - 1]) + [!Collide(h.player.rect, cs[n - 1].rect)];
      KeepSnoc(cs[..n - 1], Missed(h.player.rect, cs[..n - 1]), cs[n - 1], !Collide(h.player.rect, cs[n - 1].rect));
    } else {
      assert cs[..0] == [];
    }
  }

  /** The sum of reward_damage over the collectables in `cs` that overlap `rect`. */
  function DamageRewards(rect: Rect, cs: seq<Collectable>): int
  {
    if cs == [] then 0
    else DamageRewards(rect, cs[..|cs| - 1])
         + (if Collide(rect, cs[|cs| - 1].rect) then cs[|cs| - 1].rewardDamage else 0)
  }

  /**
   * What sweep 4 gives the player: its damage grows by exactly the sum of
   * reward_damage over the collectables it overlaps, each 0 or 1; once any
   * is consumed health is at most max_health, and with non-negative rewards
   * healing never lowers it.
   */
  lemma {:induction false} PickupRewards(h: PickupSweep, cs: seq<Collectable>, n: nat)
    requires n <= |cs|
    requires forall k :: 0 <= k < |cs| ==> 0 <= cs[k].rewardDamage <= 1 && cs[k].rewardHealth >= 0
    ensures var r := Gather(h, cs, n);
            var consumed := n - (|r.left| - |h.left|);
            && 0 <= consumed <= n
            && r.player.damage == h.player.damage + DamageRewards(h.player.rect, cs[..n])
            && h.player.damage <= r.player.damage <= h.player.damage + consumed
            && (consumed == 0 ==> r.player == h.player)
            && (consumed > 0 ==> r.player.status.health <= r.player.maxHealth)
            && (h.player.status.health <= h.player.maxHealth ==>
                  h.player.status.health <= r.player.status.health <= r.player.maxHealth)
  {
    if n > 0 {
      PickupRewards(h, cs, n - 1);
      PickupsAreConsumed(h, cs, n - 1);
      assert cs[..n][..n - 1] == cs[..n - 1];
    }
  }

  /**
   * The whole pass. A bullet overlapping a wall is gone; an enemy bullet is
   * removed in the first sweep only by a wall; the player's own bullets
   * survive the third sweep; no collectable left overlaps the player; the
   * enemies keep their places and the dead stay as they were; and the pass
   * adds at most one collectable per enemy it kills.
   */
  lemma {:induction false} ResolveGuarantees(player: PlayerView, foes: seq<EnemyView>, shots: seq<BulletView>, walls: seq<Rect>,
                                             pickups: seq<Collectable>, now: int, draw: nat -> LootDraw, lootSize: Size)
    ensures var r := Resolve(player, foes, shots, walls, pickups, now, draw, lootSize);
            && |r.live| == |shots| && |r.foes| == |foes|
            && (forall i :: 0 <= i < |shots| && CollidesAny(shots[i].rect, walls) ==> !r.live[i])
            && (forall i :: 0 <= i < |shots| && shots[i].target == TargetPlayer ==>
                  (r.live[i] <==> !CollidesAny(shots[i].rect, walls)))
            && |r.held| == |Keep(shots, r.live)|
            && (forall k :: 0 <= k < |r.held| && Keep(shots, r.live)[k].target == TargetEnemy ==> r.held[k])
            && (forall c :: c in r.pickups ==> !Collide(player.rect, c.rect))
            && (forall j :: 0 <= j < |foes| ==> r.foes[j].rect == foes[j].rect)
            && (forall j :: 0 <= j < |foes| && !InGroup(foes[j]) ==> r.foes[j] == foes[j])
            && Fallen(foes) <= Fallen(r.foes) <= |foes|
            && |r.pickups| <= |pickups| + (Fallen(r.foes) - Fallen(foes))
  {
    var w := Sweep(foes, [], pickups, 0);
    forall i | 0 <= i < |shots|
      ensures var swept := SweepShots(w, shots, |shots|, walls, now, draw, lootSize);
              swept.live[i] == !Spent(SweepShots(w, shots, i, walls, now, draw, lootSize).foes, shots[i], walls)
    {
      SweepRemovals(w, shots, |shots|, i, walls, now, draw, lootSize);
    }
    SweepKillsAndDrops(w, shots, |shots|, walls, now, draw, lootSize);
    var swept := SweepShots(w, shots, |shots|, walls, now, draw, lootSize);
    FallenBound(swept.foes);
    var group := Keep(swept.foes, Alive(swept.foes));
    MeleeKeepsPlace(MeleeSweep(player, 0), group, |group|, now);
    var melee := Melee(MeleeSweep(player, 0), group, |group|, now);
    var flying := Keep(shots, swept.live);
    OwnBulletsPassThroughPlayer(AbsorbSweep(melee.player, [], melee.deaths), flying, |flying|, now);
    var volley := Absorb(AbsorbSweep(melee.player, [], melee.deaths), flying, |flying|, now);
    var cs := swept.pickups;
    PickupsAreConsumed(PickupSweep(volley.player, []), cs, |cs|);
    assert cs[..|cs|] == cs;
    var r := Resolve(player, foes, shots, walls, pickups, now, draw, lootSize);
    forall c | c in r.pickups
      ensures !Collide(player.rect, c.rect)
    {
      KeepMembers(cs, Missed(player.rect, cs), c);
    }
  }
}
