/**
 * The hit-state bookkeeping that Player and Enemy share: take_hit ignores
 * all damage while the hit-state is on, a surviving hit turns the hit-state
 * on, and only the owner's update turns it off again once its duration has
 * passed. Every timer in the game is an "elapsed >= duration" comparison on
 * millisecond timestamps.
 */
module Combat {
  /** hit_state_duration, in milliseconds, for both players and enemies. */
  const HIT_STATE_DURATION: int := 500

  /** health, hit_state and hit_state_start of a damageable entity. */
  datatype Vitals = Vitals(health: int, hitState: bool, hitStateStart: int)

  /** A timer started at `start` has run out at `now`. */
  predicate Elapsed(start: int, duration: int, now: int)
  {
    now >= start + duration
  }

  /** The hit takes the entity's health to zero or below (it is not ignored). */
  predicate Fatal(v: Vitals, damage: int)
  {
    !v.hitState && v.health - damage <= 0
  }

  /** take_hit(damage) at time `now`, apart from what happens on death. */
  function Hit(v: Vitals, damage: int, now: int): Vitals
  {
    if v.hitState then v
    else if v.health - damage <= 0 then v.(health := v.health - damage)
    else Vitals(v.health - damage, true, now)
  }

  /** The hit-state test at the top of update. */
  function Expire(v: Vitals, now: int): Vitals
  {
    if v.hitState && Elapsed(v.hitStateStart, HIT_STATE_DURATION, now) then v.(hitState := false)
    else v
  }

  /** Player.heal: health rises by `amount` but not above max_health. */
  function Healed(health: int, amount: int, maxHealth: int): int
  {
    if health + amount < maxHealth then health + amount else maxHealth
  }

  /**
   * What take_hit does: while the hit-state is on nothing changes; otherwise
   * health drops by exactly the damage, and the hit-state starts at `now`
   * exactly when the entity survives.
   */
  lemma {:induction false} HitOutcome(v: Vitals, damage: int, now: int)
    ensures var r := Hit(v, damage, now);
            && (v.hitState ==> r == v)
            && (!v.hitState ==> r.health == v.health - damage)
            && (!v.hitState ==> (r.hitState <==> r.health > 0))
            && (!v.hitState && r.health > 0 ==> r.hitStateStart == now)
            && (Fatal(v, damage) <==> !v.hitState && r.health <= 0)
  {
  }

  /**
   * The hit-state window: after a surviving hit at t0, every hit before
   * t0 + 500 is ignored even if update runs in between; once update runs at
   * or after t0 + 500 the next hit lands in full.
   */
  lemma {:induction false} HitStateWindow(v: Vitals, d0: int, t0: int, d1: int, t1: int)
    requires !v.hitState && v.health - d0 > 0
    ensures var hurt := Hit(v, d0, t0);
            && (t1 < t0 + HIT_STATE_DURATION ==>
                  Expire(hurt, t1) == hurt && Hit(Expire(hurt, t1), d1, t1) == hurt)
            && (t1 >= t0 + HIT_STATE_DURATION ==>
                  Hit(Expire(hurt, t1), d1, t1).health == v.health - d0 - d1)
  {
  }

  /** A fatal hit starts no hit-state, so a second hit in the same frame lands too. */
  lemma {:induction false} FatalHitLeavesEntityExposed(v: Vitals, d0: int, d1: int, now: int)
    requires Fatal(v, d0)
    ensures Fatal(Hit(v, d0, now), d1) <==> d1 >= v.health - d0
  {
  }

  /** Healing never takes health above the maximum, and never lowers it for a non-negative amount. */
  lemma {:induction false} HealIsClamped(health: int, amount: int, maxHealth: int)
    ensures Healed(health, amount, maxHealth) <= maxHealth
    ensures Healed(health, amount, maxHealth) == health + amount || Healed(health, amount, maxHealth) == maxHealth
    ensures amount >= 0 && health <= maxHealth ==> health <= Healed(health, amount, maxHealth)
  {
  }

  /**
   * An enemy as its constructor makes it, 15 health, hit for 5. A second hit
   * inside the window is ignored; after the window a second and third hit
   * bring it to exactly zero, which is fatal.
   */
  lemma EnemyTakesThreeHits(t0: int, t1: int, t2: int)
    requires t0 <= t1 < t0 + HIT_STATE_DURATION
    requires t2 >= t0 + HIT_STATE_DURATION
    ensures var first := Hit(Vitals(15, false, 0), 5, t0);
            var ignored := Hit(Expire(first, t1), 5, t1);
            var second := Hit(Expire(ignored, t2), 5, t2);
            && first.health == 10 && ignored == first
            && second.health == 5 && second.hitState
            && Fatal(Expire(second, t2 + HIT_STATE_DURATION), 5)
  {
  }
}
