# Crypto Crime Fighter: the frame rules, in Dafny

Crypto Crime Fighter is a top-down pygame shooter. Each level is a tile grid
of walls, enemies, collectables and a start tile for the player. This
project models the part of the game that decides things frame by frame:

- how a body moves (one axis at a time, reverted on a wall) and how a bullet
  moves (straight, no wall test) and leaves the screen;
- `take_hit`, the 500 ms hit-state that makes an entity ignore damage, the
  clamped `heal`, the 200 ms shot cooldown and the firing test;
- the enemy's decision step (attack, else pursue, else wander), gated by its
  action timer, with the line-of-sight sampling of `_player_in_range`;
- loot drops, at most one collectable per enemy death;
- `Game.check_collisions`, the four sweeps over the bullet, enemy, wall and
  collectable groups that deal damage, heal, and remove sprites;
- the tile-to-sprite loop of `play_level`, `new_game`, and the
  "enemies cleared" branch of the game loop that either wins the game or
  loads the next level;
- `LevelManager`, the level counter over Network, Harddrive and CPU.

Modules:

- `Geometry`: pygame's integer `Rect` tests.
- `Groups`: sprite groups as sequences in insertion order; `kill()` is a
  filter.
- `Movement`: `Entity.move`.
- `Combat`: the hit-state rules.
- `Sight`: `_player_in_range`.
- `Entities`: the `Player`, `Enemy` and `Bullet` classes, and collectables as
  values.
- `Collisions`: the collision pass stated on values.
- `Spawning`: the tile grid and what it spawns.
- `Levels`: `LevelManager`.
- `Engine`: the `Game` class.

The objects the game mutates in place are classes, and their methods update
their fields: players, enemies, bullets, the level manager and the game.
Walls and collectables are never changed after they are made, so they are
values.

The clock (`pg.time.get_ticks()`) is an explicit parameter `now`, and so is
every random draw:

- `random.random()` and `random.choice` inside `Enemy.update`;
- `random.randint(750, 1500)` for the action timer, as `timer(k)` for the
  k-th enemy a level spawns;
- `random.choice([0, 1])` for a collectable's damage reward, as `bonus(k)`;
- the loot rolls of a collision pass, as `draw(k)` for its k-th `drop_loot`.

Level files are read by a parameter `load`.

The collision pass works on the sprites in their groups. `Engine.Game.CheckCollisions`
is proved to leave exactly the state that the value-level function
`Collisions.Resolve` describes. The properties are then proved as lemmas
about `Resolve` and the sweep functions it is built from. The spawn loop is
handled the same way. `Engine.Game.PlayLevel` is proved to leave the groups
holding what `Spawning.Expected` says for the grid's spawn list
(`Spawning.Layout`), and the lemmas in `Spawning` say what that list holds.

The model follows the code in these places, where a reader might expect
otherwise:

- A player bullet that overlaps several enemies in one frame damages every one
  of them (game.py:685-688). It is not consumed by its first hit.
- A tile whose token is not W, E, P or C spawns nothing; it is not an error.
- Row or column counts that do not match the grid surface as the `IndexError`
  Python raises. This is modelled as a `false` result with the groups left
  partly filled.
- `Enemy.update` calls the unguarded line-of-sight check. With the player in
  range and under 10 units away the update ends with ZeroDivisionError
  (see "## Findings"), after `last_action` has been stamped.

## Model

| member | source | states |
|---|---|---|
| Geometry.SpriteCollideAny | entities.py:36-37 | `spritecollide(self, walls)` is non-empty exactly when some wall's rectangle overlaps the body; an empty result means no wall overlaps it |
| Geometry.CollideIffSharedPixel | game.py:684-685 | `colliderect` holds exactly when some pixel lies inside both rectangles, so rectangles that only share an edge do not collide |
| Geometry.CollideSymmetric | game.py:694 | overlap does not depend on which of the two sprites asks (player against enemy or enemy against player) |
| Geometry.ContainsIffEveryPixel | entities.py:309 | for a non-empty bullet, `screen_rect.contains(rect)` holds exactly when every pixel of the bullet is on the screen |
| Movement.Move | entities.py:23-43 | the rectangle `Entity.move` leaves: a bullet shifted by direction times speed on both axes; any other body moved on x and then on y, each axis put back to its start when it hits a wall |
| Movement.MoveSettlesEachAxis | entities.py:30-43 | x ends at start_x + dx*speed, or exactly at start_x if that overlaps a wall; y is then decided the same way, tested at the already settled x; the size never changes |
| Movement.MoveKeepsBodyOutOfWalls | entities.py:30-43 | a body that overlaps no wall before `move` overlaps no wall after it |
| Movement.WallSliding | entities.py:33-43 | the x outcome does not depend on the y step, and a body blocked only horizontally still slides vertically |
| Movement.ProjectileIgnoresWalls | entities.py:25-28 | a bullet moves by exactly direction times speed on both axes, whatever the walls |
| Combat.HitOutcome | entities.py:138-150 | in hit-state `take_hit` changes nothing; otherwise health drops by exactly the damage, and the hit-state starts at `now` exactly when health stays above 0 |
| Combat.HitStateWindow | entities.py:155-158 | after a surviving hit at t0, any hit before t0 + 500 is ignored even with an `update` in between; after an `update` at or past t0 + 500 the next hit lands in full |
| Combat.FatalHitLeavesEntityExposed | entities.py:143-147 | a fatal hit starts no hit-state, so a second hit in the same frame is fatal exactly when its damage reaches what health is left |
| Combat.HealIsClamped | entities.py:152-153 | `heal` never takes health above `max_health`; the result is health + amount or `max_health`; a non-negative amount never lowers health |
| Combat.EnemyTakesThreeHits | entities.py:274-286 | a fresh enemy (15 health) hit for 5 is at 10; a hit inside the 500 ms window is ignored; after the window the next hit leaves 5 with a new hit-state, and the one after that is fatal |
| Sight.PlayerInRangeAsWritten | entities.py:201-220 | `_player_in_range` as written: it fails (ZeroDivisionError) exactly when the player is within range and under 10 units away; otherwise its answer is `InRange` |
| Sight.PlayerInRange | entities.py:201-220 | the sampling loop with the zero count guarded: in range and no sample 1 .. chk_count-2 inside a wall, that is `InRange` |
| Sight.SeenMeansApart | entities.py:201-226 | when the unguarded check answers and sees the player, the centres are at least 10 units apart, so the vector `_vec_to_player` normalises is never zero |
| Sight.CloseRangeFaults | entities.py:211-212 | every distance under 10 within range makes the code divide by zero, where the guarded check sees the player |
| Sight.SightIsMonotoneInRange | entities.py:201-220 | a player seen within a smaller range is seen within any larger one; within both ranges the two answers agree |
| Sight.MidpointWallBlocks | entities.py:213-218 | a wall containing the middle sample (with at least 3 samples) hides the player at every range |
| Entities.LootDropRule | entities.py:288-290 | `drop_loot` makes a collectable exactly when the roll is at most `reward_chance`, at the enemy's top-left corner, worth 20 health and 0 or 1 damage |
| Entities.ShotsAreSpaced | entities.py:160-163 | once the player has fired at t0, it fires again at t1 exactly when the button is down, it is not in hit-state and t1 >= t0 + 200; a player in hit-state never fires |
| Entities.DecisionWaitsForTimer | entities.py:239-240 | before `last_action + action_timer` the enemy keeps its plan and does not fire |
| Entities.DecisionPriority | entities.py:239-269 | once the timer has run out, every decision sets `last_action = now`; the enemy fires exactly when in attack range with a clear line and then stops wandering; else in sight it pursues; else it starts or stops wandering by the 0.25 roll |
| Entities.WanderDirections | entities.py:257-263 | the direction after a decision is the old one, the one towards the player, or the random pick from {-1, 0, 1} x {-1, 0, 1} |
| Entities.AttackBeatsPursuitAt200 | entities.py:242-256 | with the player 200 away and a clear line the enemy attacks and does not pursue; with a wall over the middle sample it decides as if the player were out of sight |
| Entities.Bullet.constructor | entities.py:294-303 | a bullet at (x, y) with speed 20 and the given direction, target and damage |
| Entities.Bullet.EnemyBullet | entities.py:313-317 | an enemy bullet targets the player with the default damage 5, and its speed is then set to 5 |
| Entities.Bullet.Update | entities.py:305-310 | the bullet moves by direction times speed with no wall test, and is removed exactly when the screen no longer contains its rectangle |
| Entities.BulletLifetime | entities.py:305-310 | a bullet on the screen's left edge moving left is removed after one update; one on that edge flying right stays while the screen is at least one step wider than the bullet |
| Entities.Player.constructor | entities.py:51-74 | the player starts at full health (100), with damage 5, ready to shoot, and not in hit-state |
| Entities.Player.TakeHit | entities.py:138-150 | the new health and hit-state are what `Combat.Hit` gives, and the death event is posted exactly when the hit is fatal |
| Entities.Player.Heal | entities.py:152-153 | health becomes min(health + amount, max_health) |
| Entities.Player.Update | entities.py:106-166 | the hit-state ends at start + 500; the body moves by the arrow keys through `Entity.move`; a bullet at the enemies is fired exactly when the button is down, the gun is re-armed (200 ms) and the player is not in hit-state; firing disarms the gun and stamps `last_shot = now` |
| Entities.Enemy.constructor | entities.py:170-199 | an enemy at (x, y) with 15 health, no hit-state, `last_action = now`, the rolled action timer, and not moving; melee damage 5, speed 3, ranges 300 and 500 and both chances 0.25 are constants of the class, so every enemy the game holds has them |
| Entities.Enemy.TakeHit | entities.py:274-286 | the new health and hit-state are what `Combat.Hit` gives; a fatal hit drops exactly the loot `drop_loot` rolls and reports the enemy dead |
| Entities.Enemy.DropLoot | entities.py:288-290 | a collectable drops exactly when the roll is at most `reward_chance`; it is a single collectable at the enemy's top-left corner worth 20 health, and 1 damage exactly when the choice picked 1 |
| Entities.Enemy.Update | entities.py:201-272 | in hit-state it only ends the hit-state after 500 ms and does nothing else, including on the frame the hit-state ends; otherwise, once its action timer has run out, it stamps `last_action` and fails with ZeroDivisionError exactly when a line-of-sight check it reaches has the player in range and under 10 units away; else its plan is the one `Decide` makes from the two checks, it fires exactly when `Decide` says so, from its centre at the player and only at a player at least 10 units away, and it moves only while `rand_moving` is set |
| Collisions.StruckAnyNext | game.py:685-688 | a bullet has struck some enemy among the first j + 1 exactly when it had among the first j or it strikes enemy j |
| Collisions.StrikeHitsEveryOverlappedEnemy | game.py:685-688 | one bullet at the enemies hits every enemy still in the group that it overlaps, once each, with `take_hit(bullet.damage)`; every other enemy is left as it was |
| Collisions.StrikeLoot | game.py:685-688 | one bullet draws one loot roll per enemy it kills and adds at most one collectable per kill, after the collectables already there |
| Collisions.SweepRemovals | game.py:684-691 | the first sweep removes bullet i exactly when, at its turn, it struck an enemy (if aimed at enemies) or it overlaps a wall |
| Collisions.SweepKillsAndDrops | game.py:684-691 | the first sweep moves no enemy, leaves dead enemies as they were, and adds at most one collectable per enemy it kills |
| Collisions.MeleeFrozenByHitState | game.py:694-695 | a player in hit-state is untouched by the enemy sweep |
| Collisions.MeleeKeepsPlace | game.py:694-695 | the enemy sweep changes only the player's health and hit-state, and never takes back a death event |
| Collisions.MeleeCostsOneHit | game.py:694-695 | with no enemy touching nothing changes; a player who survives the first contact loses the melee damage once and enters hit-state at `now`; a player the first contact kills gets one death event and one loss per enemy touching it |
| Collisions.OwnBulletsPassThroughPlayer | game.py:698-701 | bullet k survives the player sweep exactly when it is not an enemy bullet overlapping the player; the player's own bullets are never touched; a player in hit-state takes no damage |
| Collisions.PickupsAreConsumed | game.py:704-706 | the collectables sweep removes exactly the collectables the player overlaps and keeps the rest in order |
| Collisions.PickupRewards | game.py:704-706 | the player's damage grows by exactly the sum of `reward_damage` over the collectables it overlaps, each 0 or 1; once any is consumed, health is at most `max_health`; with no consumption the player is unchanged |
| Collisions.ResolveGuarantees | game.py:682-706 | over the whole pass: a bullet on a wall is gone; an enemy bullet is removed in the first sweep only by a wall; the player's own bullets survive the third sweep; no collectable left overlaps the player; enemies keep their places; at most one new collectable per kill |
| Spawning.TileSpawnRule | game.py:192-199 | W, E, P and C spawn a wall, an enemy, the player and a collectable at the tile's pixel; any other token spawns nothing |
| Spawning.PixelIsProduct | game.py:188-191 | the k-th step of the loop is at pixel k * tile_size |
| Spawning.StepsCount | game.py:188-189 | `range(0, extent, tile_size)` visits the k-th pixel exactly for k below `Steps(extent, tile_size)` |
| Spawning.ColumnCells | game.py:189-201 | a column spawns exactly what its cells ask for |
| Spawning.LayoutCells | game.py:187-201 | a spawn comes out of the two loops exactly when some visited cell holds its token, at that cell's pixel |
| Spawning.PlaceAllSorted | game.py:187-201 | carrying out the spawns one by one from empty groups leaves the walls, enemies and collectables of the list in list order, and the player at the last P (or where it was) |
| Spawning.SpawnsSorted | game.py:187-201 | an enemy spot, a collectable spot or a wall is listed exactly where the grid spawns one; the player spot is a P with no P after it |
| Levels.ClearsReachWin | game.py:649-654 | clearing k levels from level `current` reaches level current + k while that is a level, and the win after the final one |
| Levels.LevelManager.constructor | levels.py:20-26 | a new manager is at level 0 with exactly Network, Harddrive and CPU, in that order |
| Levels.LevelManager.IsFinalLevel | levels.py:28-29 | true exactly when `current_level == len(levels) - 1`; on the game's three levels that is level 2, CPU |
| Levels.LevelManager.GetLevel | levels.py:31-32 | `get_level` needs `current_level` inside the list and returns one of its levels: the first at level 0, the last on the final level |
| Levels.LevelManager.NextLevel | levels.py:34-35 | `next_level` adds exactly one to `current_level` and changes nothing else |
| Levels.ThreeLevelsToWin | levels.py:20-35 | from a fresh manager, clearing once reaches Harddrive, twice reaches CPU, and a third time is the win |
| Engine.Game.constructor | game.py:115-151 | a new game is on the title screen with a fresh level manager at level 0 and empty groups |
| Engine.Game.CheckCollisions | game.py:682-706 | the player, the enemies (updated in place, dead ones out of the group), the bullets, the collectables and the death events are exactly what `Resolve` gives; the game stays valid |
| Engine.Game.BulletPhase | game.py:684-691 | sweep 1 updates the enemies and collectables as `FirstSweep` says, then the spent bullets and dead enemies leave their groups |
| Engine.Game.SweepEnemies | game.py:684-691 | sweep 1, then the enemies it killed leave the group in order |
| Engine.Game.SweepBullets | game.py:684-691 | the loop over the bullet group leaves the enemies, collectables and removal flags `FirstSweep` gives |
| Engine.Game.SweepStep | game.py:684-691 | one bullet of sweep 1: the enemies and collectables become what `SweepOne` gives, and the bullet stays exactly when it is not spent |
| Engine.Game.StrikeEnemies | game.py:685-688 | the loop over the enemies for one bullet, reporting whether it struck any |
| Engine.Game.StrikeStep | game.py:686-688 | one enemy against the bullet: it is hit exactly when it is still in the group and the bullet overlaps it |
| Engine.Game.HitEnemy | game.py:687-688 | `enemy.take_hit(bullet.damage)` changes that enemy alone, and its loot joins the collectables |
| Engine.Game.CullEnemies | entities.py:281-283 | the enemies killed this frame leave the group, the others stay in order, and every one left has health |
| Engine.Game.CullBullets | game.py:688-691 | the bullets the first sweep spent leave the group, the others stay in order |
| Engine.Game.PlayerPhase | game.py:693-706 | sweeps 2, 3 and 4 leave the player, bullets, collectables and death events that `PlayerSweeps` gives, and change no enemy |
| Engine.Game.MeleePass | game.py:694-695 | the loop over the enemies touching the player leaves the player and the death events `Melee` gives |
| Engine.Game.AbsorbPass | game.py:698-701 | the loop over the bullets touching the player leaves the player, the kept bullets and the death events `Absorb` gives |
| Engine.Game.GatherPass | game.py:704-706 | the loop over the collectables touching the player leaves the player and the collectables `Gather` gives |
| Engine.Game.SpawnTile | game.py:192-199 | one tile: the groups go from holding a placement to holding it with the tile's spawn carried out |
| Engine.Game.SpawnCell | game.py:189-201 | the body of the inner loop for one row of a column: it fails exactly when `level_grid[grid_y][grid_x]` does not exist, and otherwise the groups hold one more cell of the column |
| Engine.Game.SpawnColumn | game.py:189-201 | the inner loop: it succeeds exactly when the grid has every row of the column, and then the groups hold one more column |
| Engine.Game.SpawnNextColumn | game.py:187-201 | one more column of the outer loop, read to the end or failing exactly when the grid lacks a cell of it |
| Engine.Game.SpawnGrid | game.py:187-201 | the two loops succeed exactly when the grid covers every visited cell, and then the groups hold every spawn of the grid, in loop order |
| Engine.Game.PlayLevel | game.py:160-209 | with a grid that covers the play area, the level is playing with no bullets; the walls, enemies and collectables are where `Expected` puts them, and the player is at the last P |
| Engine.Game.NewGame | game.py:153-158 | a fresh player at full health and a fresh level manager at level 0, then the first level (Network) is played |
| Engine.Game.AdvanceIfCleared | game.py:649-654 | with enemies left nothing changes; once the group is empty, the final level is the win and any other level moves the counter on by one and plays the next level, whose failed load leaves the state as it was |

## Left out

- Rendering, menus, text sprites, sounds, images and the display: they are presentation and carry no rule.
- The event loop, `run_game`, `exit_game` and the F4 key that removes every enemy: they are event plumbing. The game-over state set by the death event is not modelled; the model counts the death events instead.
- File I/O: `Level.load`, `Game.load_level` and `load_image`. The grid comes from the `load` parameter, and an image's bounding rectangle is a `Size` parameter.
- Floating point: `_rotate`, `Vector2` normalising, `distance_to` and `lerp`. Aim and move directions are given integer pairs, and the distance and the sample points are inputs. Truncation of a fractional move into `rect.x` is not modelled.
- The `entities` render group and `score`: nothing in the modelled rules reads them.
- The clock and logging: `Player.update`, `Enemy.update` and the collision pass may read `pg.time.get_ticks()` more than once, and the model uses one `now` per call; the `print` calls that log sight and aim are left out.
- `main.py`: it only holds window constants and a call into `Game`.
- Engine.Game.PlayLevel: it requires `tile_size > 0`, because `range` raises `ValueError` on a zero step.
- Engine.Game.PlayLevel: it takes `grid_x = int(x / tile_size)` as the exact quotient, which is what it is for the pixels the loop visits.
- Engine.Game.SpawnGrid: on a failed read it does not state which groups are partly filled.
- Engine.Game.CheckCollisions: it removes a killed enemy from the group after the bullet sweep, not in the middle of it. Its effect is the same, because a dead enemy stays in the group only with health at or below zero, and `Struck` skips it.
- Groups: a sprite group is a sequence without repeated members, in insertion order, which is the order pygame iterates in.
- Entities.Player.Update: a click with the mouse exactly on the player's centre makes `normalize_ip` raise ValueError on the zero vector (entities.py:130-133); the aim is a given direction here, so that crash is not modelled and such a shot is fired with aim (0, 0).
- Entities.Player.Update: `_rotate` swaps the image and re-centres the rectangle on the rotated image's size. The model keeps the rectangle's size, and leaves out the barrel offset, which the code computes but does not use for firing.

## Findings

| source | as written | input that shows it | evidently intended | confidence | as-written member | corrected member |
|---|---|---|---|---|---|---|
| entities.py:211-212 | `interval = 1 / chk_count` with `chk_count = int(distance_to_player / 10)`, with no guard, reached from `Enemy.update` (entities.py:242-250) | an enemy within range whose centre is less than 10 units from the player's: `chk_count` is 0 and Python raises ZeroDivisionError | a player this close is in plain sight, as it already is with one or two samples | high (not executed) | Sight.PlayerInRangeAsWritten | Sight.PlayerInRange |
