/**
 * The sprites of entities.py: the player, the enemies with their timer-driven
 * decisions, bullets, walls (plain rectangles here) and collectables.
 * Randomness and the clock are parameters: `now` is pg.time.get_ticks(),
 * `roll` a value of random.random(), `pick` two values of random.choice.
 * Directions are the already normalised vectors the source computes with
 * pygame's Vector2, given as integer pairs.
 */
module Entities {
  import opened Geometry
  import opened Wrappers
  import opened Combat
  import Movement
  import Sight

  const PLAYER_SPEED: int := 6
  const PLAYER_MAX_HEALTH: int := 100
  const PLAYER_DAMAGE: int := 5
  /** shot_timer is 0.2 seconds, compared in milliseconds. */
  const SHOT_COOLDOWN: int := 200

  const ENEMY_HEALTH: int := 15
  const ENEMY_MELEE_DAMAGE: int := 5
  const ENEMY_SPEED: int := 3
  const ATTACK_RANGE: int := 300
  const SIGHT_RANGE: int := 500
  const RAND_ACTION_CHANCE: real := 0.25
  const REWARD_CHANCE: real := 0.25

  const BULLET_SPEED: int := 20
  const ENEMY_BULLET_SPEED: int := 5
  const BULLET_DAMAGE: int := 5

  const REWARD_HEALTH: int := 20

  /** A bullet's `target`: the class of sprite it is allowed to damage. */
  datatype Target = TargetEnemy | TargetPlayer

  datatype Collectable = Collectable(rect: Rect, rewardHealth: int, rewardDamage: int)

  /** Collectable(game, x, y): 20 health, and 1 damage when random.choice([0, 1]) picked 1. */
  function NewCollectable(x: int, y: int, size: Size, bonus: bool): Collectable
  {
    Collectable(At(x, y, size), REWARD_HEALTH, if bonus then 1 else 0)
  }

  /** The draws behind one loot drop: random.random() against reward_chance, then random.choice([0, 1]). */
  datatype LootDraw = LootDraw(roll: real, bonus: bool)

  /** Enemy.drop_loot: on a successful roll, one Collectable at the enemy's top-left corner. */
  function Loot(rect: Rect, chance: real, draw: LootDraw, size: Size): Option<Collectable>
  {
    if draw.roll <= chance then Some(NewCollectable(rect.x, rect.y, size, draw.bonus)) else None
  }

  /** A loot drop is a single collectable worth 20 health and 0 or 1 damage, dropped exactly when the roll succeeds. */
  lemma {:induction false} LootDropRule(rect: Rect, chance: real, draw: LootDraw, size: Size)
    ensures var loot := Loot(rect, chance, draw, size);
            && (loot.Some? <==> draw.roll <= chance)
            && (loot.Some? ==> loot.value.rect.x == rect.x && loot.value.rect.y == rect.y)
            && (loot.Some? ==> loot.value.rewardHealth == 20 && 0 <= loot.value.rewardDamage <= 1)
  {
  }

  /** What one Player.update reads from the keyboard and mouse; `aim` is the normalised vector towards the mouse. */
  datatype Controls = Controls(left: bool, right: bool, up: bool, down: bool, click: bool, aim: (int, int))

  /** `keystate[positive] - keystate[negative]`. */
  function Axis(negative: bool, positive: bool): int
  {
    (if positive then 1 else 0) - (if negative then 1 else 0)
  }

  /** can_shoot after update's cooldown test. */
  predicate Reloaded(canShoot: bool, lastShot: int, now: int)
  {
    canShoot || Elapsed(lastShot, SHOT_COOLDOWN, now)
  }

  /** The firing test of _take_action, with the hit-state as update left it. */
  predicate Fires(click: bool, canShoot: bool, lastShot: int, hitState: bool, now: int)
  {
    click && Reloaded(canShoot, lastShot, now) && !hitState
  }

  /**
   * The shot cooldown: after a shot at t0 the player cannot fire again before
   * t0 + 200, can fire from then on, and never fires while in hit-state.
   */
  lemma {:induction false} ShotsAreSpaced(t0: int, t1: int, click: bool, hitState: bool)
    ensures Fires(click, false, t0, hitState, t1) <==> click && !hitState && t1 >= t0 + SHOT_COOLDOWN
    ensures Fires(click, true, t0, true, t1) == false
  {
  }

  /** The enemy's decision state: last_action, rand_moving and move_dir. */
  datatype Behaviour = Behaviour(lastAction: int, randMoving: bool, moveDir: (int, int))

  datatype Decision = Decision(plan: Behaviour, fires: bool)

  /**
   * The decision step of Enemy.update once the enemy is not in hit-state.
   * `inAttack` and `inSight` are the two line-of-sight checks.
   */
  function Decide(b: Behaviour, actionTimer: int, now: int, inAttack: bool, inSight: bool,
                  chance: real, roll: real, pick: (int, int), toPlayer: (int, int)): Decision
  {
    if !Elapsed(b.lastAction, actionTimer, now) then Decision(b, false)
    else if inAttack then Decision(Behaviour(now, false, b.moveDir), true)
    else if inSight then Decision(Behaviour(now, true, toPlayer), false)
    else if !b.randMoving then
      (if roll >= chance then Decision(Behaviour(now, true, pick), false)
       else Decision(b.(lastAction := now), false))
    else if roll < chance then Decision(Behaviour(now, false, b.moveDir), false)
    else Decision(b.(lastAction := now), false)
  }

  /** Before the action timer runs out the enemy keeps its plan and does not fire. */
  lemma {:induction false} DecisionWaitsForTimer(b: Behaviour, actionTimer: int, now: int, inAttack: bool, inSight: bool,
                                                 chance: real, roll: real, pick: (int, int), toPlayer: (int, int))
    requires now < b.lastAction + actionTimer
    ensures Decide(b, actionTimer, now, inAttack, inSight, chance, roll, pick, toPlayer) == Decision(b, false)
  {
  }

  /**
   * The priority order once the timer has run out: attack pre-empts pursuit,
   * pursuit pre-empts wandering, and every decision restarts the timer at `now`.
   */
  lemma {:induction false} DecisionPriority(b: Behaviour, actionTimer: int, now: int, inAttack: bool, inSight: bool,
                                            chance: real, roll: real, pick: (int, int), toPlayer: (int, int))
    requires now >= b.lastAction + actionTimer
    ensures var d := Decide(b, actionTimer, now, inAttack, inSight, chance, roll, pick, toPlayer);
            && d.plan.lastAction == now
            && (d.fires <==> inAttack)
            && (inAttack ==> !d.plan.randMoving)
            && (!inAttack && inSight ==> d.plan.randMoving && d.plan.moveDir == toPlayer)
            && (!inAttack && !inSight && !b.randMoving ==>
                  d.plan.randMoving == (roll >= chance) && (roll >= chance ==> d.plan.moveDir == pick))
            && (!inAttack && !inSight && b.randMoving ==>
                  d.plan.randMoving == (roll >= chance) && d.plan.moveDir == b.moveDir)
  {
  }

  /** Wandering only ever picks a direction from {-1, 0, 1} x {-1, 0, 1} or heads for the player. */
  lemma {:induction false} WanderDirections(b: Behaviour, actionTimer: int, now: int, inAttack: bool, inSight: bool,
                                            chance: real, roll: real, pick: (int, int), toPlayer: (int, int))
    requires pick.0 in {-1, 0, 1} && pick.1 in {-1, 0, 1}
    ensures var d := Decide(b, actionTimer, now, inAttack, inSight, chance, roll, pick, toPlayer);
            d.plan.moveDir == b.moveDir || d.plan.moveDir == toPlayer || d.plan.moveDir == pick
  {
  }

  /**
   * An enemy with attack range 300 and sight range 500, the
   * player 200 away. With a clear line the enemy attacks and never pursues;
   * with a wall over the middle sample it neither attacks nor pursues and
   * decides exactly as if the player were out of sight.
   */
  lemma {:induction false} AttackBeatsPursuitAt200(b: Behaviour, actionTimer: int, now: int, walls: seq<Rect>,
                                                   pointAt: int -> Point, roll: real, pick: (int, int), toPlayer: (int, int))
    requires now >= b.lastAction + actionTimer
    ensures Sight.ClearLine(Sight.CheckCount(200.0), walls, pointAt) ==>
              var d := Decide(b, actionTimer, now, Sight.InRange(200.0, ATTACK_RANGE, walls, pointAt),
                              Sight.InRange(200.0, SIGHT_RANGE, walls, pointAt), RAND_ACTION_CHANCE, roll, pick, toPlayer);
              d.fires && !d.plan.randMoving
    ensures Sight.Blocked(pointAt(10), walls) ==>
              Decide(b, actionTimer, now, Sight.InRange(200.0, ATTACK_RANGE, walls, pointAt),
                     Sight.InRange(200.0, SIGHT_RANGE, walls, pointAt), RAND_ACTION_CHANCE, roll, pick, toPlayer)
              == Decide(b, actionTimer, now, false, false, RAND_ACTION_CHANCE, roll, pick, toPlayer)
  {
    assert Sight.CheckCount(200.0) == 20;
    if Sight.Blocked(pointAt(10), walls) {
      Sight.MidpointWallBlocks(200.0, ATTACK_RANGE, walls, pointAt);
      Sight.MidpointWallBlocks(200.0, SIGHT_RANGE, walls, pointAt);
    }
  }

  class Bullet {
    var rect: Rect
    var speed: int
    const direction: (int, int)
    const damage: int
    const target: Target

    /** Bullet(game, x, y, direction, target, damage): speed 20, top-left corner at (x, y). */
    constructor (x: int, y: int, direction: (int, int), target: Target, damage: int, size: Size)
      ensures rect == At(x, y, size) && speed == BULLET_SPEED
      ensures this.direction == direction && this.target == target && this.damage == damage
    {
      rect := At(x, y, size);
      speed := BULLET_SPEED;
      this.direction := direction;
      this.damage := damage;
      this.target := target;
    }

    /** EnemyBullet: a Bullet at the player with the default damage, whose speed is then set to 5. */
    constructor EnemyBullet(x: int, y: int, direction: (int, int), size: Size)
      ensures rect == At(x, y, size) && speed == ENEMY_BULLET_SPEED
      ensures this.direction == direction && target == TargetPlayer && damage == BULLET_DAMAGE
    {
      rect := At(x, y, size);
      speed := BULLET_SPEED;
      this.direction := direction;
      damage := BULLET_DAMAGE;
      target := TargetPlayer;
      speed := ENEMY_BULLET_SPEED;
    }

    /**
     * Bullet.update: move by direction * speed without a wall test, then
     * report removal when the screen rectangle no longer contains the bullet.
     */
    method Update(screen: Rect) returns (removed: bool)
      modifies this`rect
      ensures rect == Movement.Moved(old(rect), speed, direction.0, direction.1, [], Movement.Projectile)
      ensures rect == Rect(old(rect.x) + direction.0 * speed, old(rect.y) + direction.1 * speed, old(rect.w), old(rect.h))
      ensures removed <==> !Contains(screen, rect)
    {
      // Entity.move never consults the walls for a bullet.
      rect := Movement.Move(rect, speed, direction.0, direction.1, [], Movement.Projectile);
      removed := !Contains(screen, rect);
    }
  }

  /**
   * A bullet on the left edge of the screen moving left leaves the screen in
   * one update, while one on that edge flying straight right stays as long as
   * the screen is at least one step wider than the bullet.
   */
  lemma {:induction false} BulletLifetime(r: Rect, screen: Rect, speed: int, dx: int, dy: int)
    requires Contains(screen, r) && speed > 0
    ensures r.x == screen.x && dx < 0 ==>
              !Contains(screen, Movement.Moved(r, speed, dx, dy, [], Movement.Projectile))
    ensures r.x == screen.x && dx == 1 && dy == 0 && 0 < r.w && r.w + speed <= screen.w ==>
              Contains(screen, Movement.Moved(r, speed, dx, dy, [], Movement.Projectile))
  {
    if r.x == screen.x && dx < 0 {
      assert dx * speed <= -1 * speed by {
        assert dx <= -1;
      }
    }
  }

  class Player {
    var rect: Rect
    const speed: int
    var canShoot: bool
    var lastShot: int
    const maxHealth: int
    var health: int
    var damage: int
    var hitState: bool
    var hitStateStart: int

    /** The player's health and hit-state. */
    ghost function Status(): Vitals
      reads this
    {
      Vitals(health, hitState, hitStateStart)
    }

    /** Player(game): the image's bounding rectangle, full health, ready to shoot. */
    constructor (bounds: Rect)
      ensures rect == bounds && speed == PLAYER_SPEED
      ensures canShoot && lastShot == -1
      ensures maxHealth == PLAYER_MAX_HEALTH && health == PLAYER_MAX_HEALTH && damage == PLAYER_DAMAGE
      ensures !hitState && hitStateStart == 0
    {
      rect := bounds;
      speed := PLAYER_SPEED;
      canShoot := true;
      lastShot := -1;
      maxHealth := PLAYER_MAX_HEALTH;
      health := PLAYER_MAX_HEALTH;
      damage := PLAYER_DAMAGE;
      hitState := false;
      hitStateStart := 0;
    }

    /**
     * Player.take_hit. `died` stands for posting PLAYERDEADEVENT; a fatal hit
     * starts no hit-state.
     */
    method TakeHit(amount: int, now: int) returns (died: bool)
      modifies this`health, this`hitState, this`hitStateStart
      ensures Status() == Hit(old(Status()), amount, now)
      ensures died == Fatal(old(Status()), amount)
    {
      if hitState {
        return false;
      }
      health := health - amount;
      if health <= 0 {
        return true;
      }
      hitState := true;
      hitStateStart := now;
      died := false;
    }

    /** Player.heal. */
    method Heal(amount: int)
      modifies this`health
      ensures health == Healed(old(health), amount, maxHealth)
      ensures health <= maxHealth
    {
      health := if health + amount < maxHealth then health + amount else maxHealth;
    }

    /**
     * Player.update: end the hit-state once it has lasted 500 ms, re-arm the
     * gun once 200 ms have passed since the last shot, move by the arrow keys,
     * and fire a bullet at the enemies from the rectangle's centre when the
     * button is down, the gun is armed and the player is not in hit-state.
     */
    method Update(now: int, input: Controls, walls: seq<Rect>, bulletSize: Size) returns (shot: Bullet?)
      modifies this`rect, this`hitState, this`canShoot, this`lastShot
      ensures hitState == Expire(old(Status()), now).hitState
      ensures rect == Movement.Moved(old(rect), speed, Axis(input.left, input.right), Axis(input.up, input.down),
                                     walls, Movement.Body)
      ensures var fired := Fires(input.click, old(canShoot), old(lastShot), hitState, now);
              && (shot != null <==> fired)
              && canShoot == (Reloaded(old(canShoot), old(lastShot), now) && !fired)
              && lastShot == (if fired then now else old(lastShot))
      ensures shot != null ==>
                fresh(shot) && shot.rect == At(Center(rect).x, Center(rect).y, bulletSize) &&
                shot.target == TargetEnemy && shot.damage == damage && shot.speed == BULLET_SPEED &&
                shot.direction == input.aim
    {
      if hitState {
        if now >= hitStateStart + HIT_STATE_DURATION {
          hitState := false;
        }
      }
      if !canShoot {
        if now - lastShot >= SHOT_COOLDOWN {
          canShoot := true;
        }
      }
      // _take_action
      rect := Movement.Move(rect, speed, Axis(input.left, input.right), Axis(input.up, input.down),
                            walls, Movement.Body);
      shot := null;
      if input.click && canShoot && !hitState {
        canShoot := false;
        lastShot := now;
        var c := Center(rect);
        shot := new Bullet(c.x, c.y, input.aim, TargetEnemy, damage, bulletSize);
      }
    }
  }

  class Enemy {
    var rect: Rect
    var health: int
    var hitState: bool
    var hitStateStart: int
    var lastAction: int
    var randMoving: bool
    var moveDir: (int, int)
    /** Rolled once in the constructor and never again. */
    const actionTimer: int
    /** The settings Enemy.__init__ gives every enemy alike. */
    const meleeDmg: int := ENEMY_MELEE_DAMAGE
    const speed: int := ENEMY_SPEED
    const attackRange: int := ATTACK_RANGE
    const sightRange: int := SIGHT_RANGE
    const rewardChance: real := REWARD_CHANCE
    const randActionChance: real := RAND_ACTION_CHANCE

    ghost function Status(): Vitals
      reads this
    {
      Vitals(health, hitState, hitStateStart)
    }

    ghost function Plan(): Behaviour
      reads this
    {
      Behaviour(lastAction, randMoving, moveDir)
    }

    /** Enemy(game, x, y) at time `now`; `timer` is random.randint(750, 1500). */
    constructor (x: int, y: int, size: Size, now: int, timer: int)
      requires 750 <= timer <= 1500
      ensures rect == At(x, y, size) && health == ENEMY_HEALTH
      ensures !hitState && hitStateStart == 0
      ensures lastAction == now && actionTimer == timer
      ensures !randMoving && moveDir == (0, 0)
    {
      rect := At(x, y, size);
      health := ENEMY_HEALTH;
      hitState := false;
      hitStateStart := 0;
      lastAction := now;
      actionTimer := timer;
      randMoving := false;
      moveDir := (0, 0);
    }

    /**
     * Enemy.take_hit. On a fatal hit the enemy drops its loot (drop_loot) and
     * `died` tells the caller to remove it from its groups.
     */
    method TakeHit(amount: int, now: int, draw: LootDraw, lootSize: Size)
      returns (died: bool, loot: Option<Collectable>)
      modifies this`health, this`hitState, this`hitStateStart
      ensures Status() == Hit(old(Status()), amount, now)
      ensures died == Fatal(old(Status()), amount)
      ensures loot == if died then Loot(rect, rewardChance, draw, lootSize) else None
    {
      loot := None;
      if hitState {
        return false, None;
      }
      health := health - amount;
      if health <= 0 {
        loot := DropLoot(draw, lootSize);
        died := true;
      } else {
        hitState := true;
        hitStateStart := now;
        died := false;
      }
    }

    /**
     * Enemy.drop_loot: one roll of random.random() against reward_chance
     * decides whether a single collectable, worth 20 health and 0 or 1
     * damage, appears at the enemy's top-left corner.
     */
    method DropLoot(draw: LootDraw, lootSize: Size) returns (loot: Option<Collectable>)
      ensures loot.Some? <==> draw.roll <= rewardChance
      ensures loot.Some? ==> loot.value.rect == At(rect.x, rect.y, lootSize)
      ensures loot.Some? ==> loot.value.rewardHealth == REWARD_HEALTH && 0 <= loot.value.rewardDamage <= 1
      ensures loot.Some? ==> (loot.value.rewardDamage == 1 <==> draw.bonus)
      ensures loot == Loot(rect, rewardChance, draw, lootSize)
    {
      loot := None;
      if draw.roll <= rewardChance {
        loot := Some(NewCollectable(rect.x, rect.y, lootSize, draw.bonus));
      }
    }

    /**
     * Enemy.update. In hit-state the enemy only checks whether the hit-state
     * has run out and does nothing else that frame. Otherwise, when the action
     * timer has run out, it attacks (one EnemyBullet from its centre), pursues
     * or wanders, and then moves every frame while rand_moving is set.
     * `dist` is the distance between the centres, `pointAt` the line-of-sight
     * samples and `toPlayer` the normalised vector towards the player.
     * The two line-of-sight checks are the code's own, so a player in range
     * and closer than 10 units ends the update with ZeroDivisionError, after
     * last_action has been stamped.
     */
    method Update(now: int, dist: real, pointAt: int -> Point, toPlayer: (int, int),
                  roll: real, pick: (int, int), walls: seq<Rect>, bulletSize: Size)
      returns (r: Result<Bullet?, Sight.Fault>)
      requires dist >= 0.0
      modifies this`rect, this`hitState, this`lastAction, this`randMoving, this`moveDir
      ensures old(hitState) ==>
                && hitState == Expire(old(Status()), now).hitState
                && rect == old(rect) && Plan() == old(Plan()) && r == Ok(null)
      ensures r.Err? <==>
                && !old(hitState) && Elapsed(old(lastAction), actionTimer, now)
                && (|| Sight.Faults(dist, attackRange)
                    || (!Sight.InRange(dist, attackRange, walls, pointAt) && Sight.Faults(dist, sightRange)))
      ensures r.Err? ==>
                && !hitState && Plan() == old(Plan()).(lastAction := now) && rect == old(rect)
      ensures !old(hitState) && r.Ok? ==>
                var d := Decide(old(Plan()), actionTimer, now,
                                Sight.InRange(dist, attackRange, walls, pointAt),
                                Sight.InRange(dist, sightRange, walls, pointAt),
                                randActionChance, roll, pick, toPlayer);
                && !hitState && Plan() == d.plan && (r.value != null <==> d.fires)
                && rect == (if d.plan.randMoving
                            then Movement.Moved(old(rect), speed, d.plan.moveDir.0, d.plan.moveDir.1, walls, Movement.Body)
                            else old(rect))
      ensures r.Ok? && r.value != null ==>
                && fresh(r.value) && r.value.rect == At(Center(old(rect)).x, Center(old(rect)).y, bulletSize)
                && r.value.target == TargetPlayer && r.value.speed == ENEMY_BULLET_SPEED
                && r.value.damage == BULLET_DAMAGE && r.value.direction == toPlayer
      ensures r.Ok? && r.value != null ==> dist >= 10.0
    {
      var shot: Bullet? := null;
      if hitState {
        if now >= hitStateStart + HIT_STATE_DURATION {
          hitState := false;
        }
        // In hit-state the enemy takes no action.
        return Ok(null);
      }

      if now >= lastAction + actionTimer {
        lastAction := now;
        var inAttack := Sight.PlayerInRangeAsWritten(dist, attackRange, walls, pointAt);
        if inAttack.Err? {
          return Err(inAttack.error);
        }
        if inAttack.value {
          Sight.SeenMeansApart(dist, attackRange, walls, pointAt);
          randMoving := false;
          var c := Center(rect);
          shot := new Bullet.EnemyBullet(c.x, c.y, toPlayer, bulletSize);
          lastAction := now;
        } else {
          var inSight := Sight.PlayerInRangeAsWritten(dist, sightRange, walls, pointAt);
          if inSight.Err? {
            // Sight range is the larger one: the attack check has already
            // faulted at every distance where this one could.
            assert false;
          }
          if inSight.value {
            randMoving := true;
            moveDir := toPlayer;
            lastAction := now;
          } else if !randMoving {
            if roll >= randActionChance {
              randMoving := true;
              moveDir := pick;
            }
          } else if roll < randActionChance {
            randMoving := false;
          }
        }
      }

      // Keep moving between decisions.
      if randMoving {
        rect := Movement.Move(rect, speed, moveDir.0, moveDir.1, walls, Movement.Body);
      }
      return Ok(shot);
    }
  }
}
