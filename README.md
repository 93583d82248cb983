# Invadrust frame tick in Dafny

This project models one frame of the Invadrust space shooter (`rust/invadrust/src/main.rs`),
a Bevy game. A frame runs four systems in their registration order:

- `movable_system` moves every movable entity by its velocity times the fixed time step and
  the base speed. It queues the despawn of each auto-despawning entity that ends up beyond the
  window edge plus a margin of 100.
- `player_laser_hit_enemy_system` tests every player laser against every enemy with an
  axis-aligned box test, each sprite size scaled by its transform. Each overlapping pair queues
  the enemy's despawn, the laser's despawn and the spawn of an `ExplosionToSpawn` marker at the
  enemy's translation.
- `explosion_to_spawn_system` turns every marker into an explosion entity with a fresh timer at
  frame 0, and queues the marker's despawn.
- `explosion_animation_system` ticks every explosion's timer. On a tick where the timer
  finishes, it advances the frame index by one. Once the index is at least `EXPLOSION_LEN` (16),
  it queues the explosion's despawn.

The systems never add or remove entities themselves: they append `Spawn` and `Despawn`
commands to a command buffer. A flush applies the buffer in order, gives spawned entities fresh
ids, and ignores the despawn of an entity that is already gone.

Layout, one module per file:

- `geometry.dfy` (`Geometry`): vectors and the box-overlap test.
- `components.dfy` (`Components`): the constants of lines 30-44, the `WinSize` resource, the
  component record of an entity, and the query each system runs.
- `commands.dfy` (`CommandBuffer`): the entity store, the commands, and what a flush does.
- `movement.dfy`, `collision.dfy`, `explosions.dfy`, `animation.dfy`: each system as
  specification functions over the store, with the lemmas about them.
- `game.dfy` (`Game`): the world as a class whose fields the systems update in place. Each
  system is a method with the source's loops, proved equal to its specification function.
  `Frame` runs the four systems with a flush after each one.
- `scenarios.dfy` (`Scenarios`): concrete frames in the game's 598 × 676 window.

Positions and sizes are reals, so the `f32` arithmetic is exact in the model. The window size,
the elapsed time of the frame, the explosion atlas handle, and the period and mode of a new
explosion's timer are parameters.

Two behaviours of the code are worth knowing:

- **A laser can hit several enemies in one pass.** The collision loop does not check whether
  the laser was already despawned, because despawns are deferred. A laser overlapping two
  enemies in the same frame removes both enemies, queues its own despawn twice and queues two
  markers. The flush removes the laser once. The model follows the code here. One explosion per
  laser would need a liveness check that the code lacks.
- **An explosion moves on when its timer finishes.** Its frame index counts the ticks on which
  the timer finished. So it is queued for despawn on the 16th finishing tick and on no earlier
  one, and the despawn takes effect at the flush after that system. Which ticks finish depends
  on the timer's mode, which `ExplosionTimer::default()` sets in a file that is not part of
  this model. Both modes are modelled:
  - A repeating timer finishes once per period.
  - A one-shot timer stays finished after its first finish, so from then on the frame advances
    on every frame, however short.

## Model

| member | source | states |
|---|---|---|
| Geometry.Xy | rust/invadrust/src/main.rs:140-143 | The x and y parts of a transform's scale, as `scale.xy()`. |
| Geometry.Mul | rust/invadrust/src/main.rs:148-151 | A sprite size multiplied component-wise by the scale. |
| Geometry.Collide | rust/invadrust/src/main.rs:146-152 | The hit test: the two boxes, centred at the translations with the given full sizes, overlap strictly on the x axis and on the y axis. The z coordinate plays no part. |
| Geometry.CollideIffCentreDistance | rust/invadrust/src/main.rs:146-152 | The strict interval-overlap test holds exactly when, on each axis, the centres are closer than half the summed full sizes. |
| Geometry.CollideSymmetric | rust/invadrust/src/main.rs:146-152 | The overlap test gives the same answer whichever box is named first. |
| Geometry.TouchingBoxesDoNotCollide | rust/invadrust/src/main.rs:146-152 | Boxes whose centres are exactly half their summed widths apart only touch and are not a hit. |
| Components.InMovableQuery | rust/invadrust/src/main.rs:112 | The movement query: entities with a velocity, a transform and `Movable`. |
| Components.InLaserQuery | rust/invadrust/src/main.rs:136 | The laser query: entities with a transform and a sprite size, tagged `Laser` and `FromPlayer`. |
| Components.InEnemyQuery | rust/invadrust/src/main.rs:137 | The enemy query: entities with a transform and a sprite size, tagged `Enemy`. |
| Components.InMarkerQuery | rust/invadrust/src/main.rs:171 | The marker query: entities carrying `ExplosionToSpawn`. |
| Components.InAnimationQuery | rust/invadrust/src/main.rs:194 | The animation query: entities with an explosion timer and an atlas sprite, tagged `Explosion`. |
| Components.Marker | rust/invadrust/src/main.rs:162 | The entity a hit spawns: an `ExplosionToSpawn` at the given translation and no other component. |
| CommandBuffer.Without | rust/invadrust/src/main.rs:128 | Removing an id from the query order keeps exactly the other ids, and keeps them distinct. |
| CommandBuffer.WithoutAppend | rust/invadrust/src/main.rs:128 | Removing an id from a concatenation removes it from each part, so the remaining ids keep their relative order. |
| CommandBuffer.SpawnCount | rust/invadrust/src/main.rs:162 | The number of spawn commands in a queue: how many ids the flush hands out. |
| CommandBuffer.Apply | rust/invadrust/src/main.rs:156-162 | Applying one command keeps the store well formed: distinct order, order and live set agree, and every live id was issued. |
| CommandBuffer.Spawned | rust/invadrust/src/main.rs:162 | A queue spawns one entity per spawn command. |
| CommandBuffer.ApplyAll | rust/invadrust/src/main.rs:128 | A flush keeps the store well formed and advances the next id by the number of spawns. |
| CommandBuffer.ApplyAllPrefix | rust/invadrust/src/main.rs:128 | Flushing one more command applies it to the store the shorter prefix produced. |
| CommandBuffer.ApplyAllAppend | rust/invadrust/src/main.rs:156-162 | Flushing two queued batches in one flush equals flushing them one after the other. |
| CommandBuffer.SpawnCountAppend | rust/invadrust/src/main.rs:162 | Spawn counts and spawned entities add up over concatenated queues. |
| CommandBuffer.DespawnsSpawnNothing | rust/invadrust/src/main.rs:128 | A queue of despawns only spawns nothing. |
| CommandBuffer.DespawnAbsentIsNoOp | rust/invadrust/src/main.rs:156-159 | Despawning an entity that is already gone leaves the store as it was. |
| CommandBuffer.DespawnTwiceIsDespawnOnce | rust/invadrust/src/main.rs:156-159 | A second despawn of the same entity has no further effect. |
| CommandBuffer.ApplyAllSurvivors | rust/invadrust/src/main.rs:156-159 | An entity survives a flush exactly when the queue holds no despawn of it, and a survivor keeps its components. An issued id that is gone stays gone. |
| CommandBuffer.ApplyAllSpawned | rust/invadrust/src/main.rs:162 | The k-th spawn of a queue is live after the flush as id nextId + k, with the spawned components, unless the same queue also despawns that id. |
| CommandBuffer.LiveIdsAreIssued | rust/invadrust/src/main.rs:162 | Every id live after a flush was issued before it or by one of its spawns. |
| CommandBuffer.DeferredVisibility | rust/invadrust/src/main.rs:128 | An entity whose despawn is queued is still in the query order until the flush, and is gone after it. The system methods' frames give the other half: collision and markers change nothing, and movement and animation keep the live ids and order. |
| CommandBuffer.UpdatedAt | rust/invadrust/src/main.rs:114-117 | Rewriting visited entities in place never adds or removes an entity. |
| CommandBuffer.UpdatedAtLookup | rust/invadrust/src/main.rs:114-117 | Each visited entity is rewritten exactly once, and every other entity is left as it was. |
| CommandBuffer.VisitStep | rust/invadrust/src/main.rs:114 | The i-th step of a query loop reaches a live, still untouched entity and rewrites it alone. |
| CommandBuffer.UpdatedAtAll | rust/invadrust/src/main.rs:196 | A loop over the whole query rewrites every live entity. |
| Movement.OutOfBounds | rust/invadrust/src/main.rs:122-125 | A position is out of bounds when it lies strictly beyond half the window height plus 100 above or below, or half the window width plus 100 right or left. |
| Movement.GameWindowBounds | rust/invadrust/src/main.rs:119-125 | In the 598 × 676 window, a position is out of bounds exactly when it lies more than 399 from the centre horizontally or more than 438 vertically. |
| Movement.DespawnedByMove | rust/invadrust/src/main.rs:119-126 | An entity is removed by movement when it is movable, auto-despawning and out of bounds after its move. |
| Movement.Moved | rust/invadrust/src/main.rs:114-117 | Movement changes only the translation of a movable entity. Scale, z, velocity, size and all other components are kept, and a non-movable entity is untouched. |
| Movement.MovedByVelocity | rust/invadrust/src/main.rs:116-117 | A movable entity's x and y each grow by exactly its velocity times 1/60 × 500 = 25/3. |
| Movement.MoveStore | rust/invadrust/src/main.rs:114-117 | The moved store has the same live ids, order and next id, and stays well formed. |
| Movement.MoveDespawns | rust/invadrust/src/main.rs:119-129 | The movement system queues at most one command per visited entity, and only despawns. |
| Movement.MoveDespawnsStep | rust/invadrust/src/main.rs:119-129 | Visiting one more entity queues at most its own despawn. |
| Movement.MoveDespawnsIff | rust/invadrust/src/main.rs:119-129 | An entity is queued exactly when it is visited, auto-despawns and its new position is strictly beyond ±w/2 ± 100 or ±h/2 ± 100. |
| Movement.MoveAndFlush | rust/invadrust/src/main.rs:109-132 | Movement and its flush spawn nothing and keep the store well formed. |
| Movement.MoveAndFlushOutcome | rust/invadrust/src/main.rs:119-129 | After movement and the flush, an entity is live exactly when it was not queued, and a survivor carries its moved components. |
| Movement.InsideOrKeptEntitySurvivesMove | rust/invadrust/src/main.rs:119-126 | An entity without auto-despawn, or whose new position lies on or inside the bounds, is never removed. |
| Collision.Box | rust/invadrust/src/main.rs:148-151 | An entity's collision box: its sprite size times the x and y of its scale. |
| Collision.Hits | rust/invadrust/src/main.rs:146-154 | A player laser and an enemy hit when their scaled boxes overlap. |
| Collision.PairHits | rust/invadrust/src/main.rs:139-154 | Two live ids are a laser and an enemy that hit each other. |
| Collision.HitCommands | rust/invadrust/src/main.rs:155-162 | The three commands one hit queues: the enemy's despawn, the laser's despawn, the marker's spawn at the enemy's translation. |
| Collision.LaserPass | rust/invadrust/src/main.rs:142-164 | The commands one laser's inner loop queues, visiting the enemies in query order. |
| Collision.CollisionCommands | rust/invadrust/src/main.rs:139-165 | The commands the nested loop queues: every laser's pass, in query order. |
| Collision.PairCount | rust/invadrust/src/main.rs:139-165 | The number of overlapping laser–enemy pairs. |
| Collision.HitEnemies | rust/invadrust/src/main.rs:142-154 | The enemies a laser hits are exactly the visited enemies whose box overlaps the laser's box. A non-laser hits none. |
| Collision.LaserPassShape | rust/invadrust/src/main.rs:146-163 | A laser's inner loop queues exactly three commands per hit enemy, in order: the enemy's despawn, the laser's despawn, and a marker spawn at the enemy's translation. |
| Collision.LaserPassSpawnCount | rust/invadrust/src/main.rs:162 | A laser's inner loop spawns one marker per hit enemy. |
| Collision.LaserPassDespawnCount | rust/invadrust/src/main.rs:159 | A laser's inner loop queues its own despawn at least once per hit enemy. |
| Collision.CollisionSpawnCount | rust/invadrust/src/main.rs:139-165 | The collision system spawns exactly one marker per overlapping laser–enemy pair. |
| Collision.LaserPassDespawnIff | rust/invadrust/src/main.rs:154-159 | A laser's inner loop despawns an id exactly when it is the laser and it hit some enemy, or the id is an enemy it hit. |
| Collision.CollisionDespawnIff | rust/invadrust/src/main.rs:136-159 | The collision system despawns an id exactly when it is a player laser that hit an enemy or an enemy that a player laser hit. No other entity is queued. |
| Collision.CollisionSpawnIff | rust/invadrust/src/main.rs:139-162 | The collision system spawns exactly the markers at the translations of enemies in overlapping pairs. |
| Collision.LaserPassSpawnIff | rust/invadrust/src/main.rs:142-162 | A laser's inner loop spawns exactly the markers at the translations of the enemies it hit. |
| Collision.LaserPassInCollision | rust/invadrust/src/main.rs:139-165 | Every laser's own pass is part of the whole system's queue: its hits and its self-despawns are all counted there. |
| Collision.DoubleHitRemovesLaserOnce | rust/invadrust/src/main.rs:139-165 | A laser overlapping two enemies queues at least two markers and at least two despawns of itself. After the flush it and both enemies are gone, without error. |
| Collision.CollideAndFlush | rust/invadrust/src/main.rs:134-166 | The collision system and its flush keep the store well formed. |
| Collision.CollideAndFlushOutcome | rust/invadrust/src/main.rs:134-166 | After collision and the flush, the next id has grown by the number of overlapping pairs. An entity is live exactly when it is neither a laser that hit nor an enemy that was hit, and a survivor is unchanged. |
| Explosions.FreshTimer | rust/invadrust/src/main.rs:184 | `ExplosionTimer::default()`: nothing elapsed, not finished, with the configured period and mode. |
| Explosions.MarkerCommands | rust/invadrust/src/main.rs:173-188 | The commands the marker loop queues: per marker, in query order, an explosion spawn and the marker's despawn. |
| Explosions.MarkerTranslation | rust/invadrust/src/main.rs:178 | The translation a marker carries, which becomes the explosion's. |
| Explosions.NewExplosion | rust/invadrust/src/main.rs:175-184 | The spawned explosion is at the marker's translation, with frame 0, a fresh timer and the `Explosion` tag. It is no marker, laser, enemy or movable entity. |
| Explosions.Markers | rust/invadrust/src/main.rs:173 | The marker query yields exactly the visited live entities carrying `ExplosionToSpawn`. |
| Explosions.MarkerCommandsShape | rust/invadrust/src/main.rs:173-188 | The marker system queues exactly two commands per marker, in order: the explosion spawn at its translation, then its despawn. |
| Explosions.MarkerDespawnIff | rust/invadrust/src/main.rs:187 | The marker system despawns exactly the markers. |
| Explosions.MarkerSpawned | rust/invadrust/src/main.rs:175-184 | The marker system spawns exactly one explosion per marker, in the markers' order, at the marker's translation. |
| Explosions.MarkersAndFlush | rust/invadrust/src/main.rs:168-189 | The marker system and its flush keep the store well formed. |
| Explosions.MarkersBecomeExplosions | rust/invadrust/src/main.rs:173-188 | After the flush, the k-th marker has become a live explosion with id nextId + k. |
| Explosions.MarkersConsumed | rust/invadrust/src/main.rs:173-188 | After the flush no marker is left, and every entity that was not a marker is live and unchanged. |
| Animation.TickTimer | rust/invadrust/src/main.rs:197-198 | A finished one-shot timer ignores the tick. Otherwise the tick finishes exactly when the elapsed time reaches the period. A repeating timer then wraps modulo the period, and period and mode never change. |
| Animation.DespawnedByAnimation | rust/invadrust/src/main.rs:198-203 | An animated explosion is removed when its tick finished and its frame index is at least 16. |
| Animation.TimerAfter | rust/invadrust/src/main.rs:197 | A timer ticked by a sequence of frames, first to last. |
| Animation.Finishes | rust/invadrust/src/main.rs:198 | How many of those ticks finished the timer. |
| Animation.AnimatedAfter | rust/invadrust/src/main.rs:196-200 | An explosion animated by a sequence of frames, first to last. |
| Animation.Animated | rust/invadrust/src/main.rs:196-200 | Animation changes only an explosion's timer and frame index. The timer is ticked once, and the index grows by 1 exactly when the tick finishes. |
| Animation.AnimateStore | rust/invadrust/src/main.rs:196-200 | The animated store has the same live ids, order and next id, and stays well formed. |
| Animation.AnimationDespawns | rust/invadrust/src/main.rs:201-203 | The animation system queues at most one command per visited entity, and only despawns. |
| Animation.AnimationDespawnsStep | rust/invadrust/src/main.rs:201-203 | Visiting one more entity queues at most its own despawn. |
| Animation.AnimationDespawnsIff | rust/invadrust/src/main.rs:198-203 | An entity is queued exactly when it is visited and is an explosion whose tick finished with an index of 16 or more. |
| Animation.AnimateAndFlush | rust/invadrust/src/main.rs:191-206 | Animation and its flush spawn nothing and keep the store well formed. |
| Animation.AnimateAndFlushOutcome | rust/invadrust/src/main.rs:196-204 | After animation and the flush, an entity is live exactly when it was not queued, and a survivor carries its animated components. |
| Animation.FrameCountsFinishes | rust/invadrust/src/main.rs:197-199 | Over any sequence of ticks, the frame index grows by exactly the number of ticks on which the timer finished. |
| Animation.DespawnIffSixteenFinishes | rust/invadrust/src/main.rs:198-203 | An explosion starting at frame 0 is queued after a sequence of ticks (none included) exactly when the last tick finishes and at least 16 ticks have finished, so first on the 16th finishing tick. |
| Animation.WholePeriodTicks | rust/invadrust/src/main.rs:197-198 | Starting with nothing elapsed, ticks of exactly one period each all finish, in either mode, and a repeating timer is left with nothing elapsed. |
| Animation.FinishedOnceStaysFinished | rust/invadrust/src/main.rs:197-198 | A finished one-shot timer is unchanged by any ticks and counts as finishing on every one of them. |
| Animation.FinishedOnceAdvancesEveryTick | rust/invadrust/src/main.rs:197-199 | An explosion whose one-shot timer has finished advances its frame index by one on every tick. |
| Animation.QueuedOnSixteenthWholePeriodTick | rust/invadrust/src/main.rs:196-204 | A fresh explosion ticked by whole periods is queued on its 16th tick and on no earlier one, in either timer mode. |
| Game.FrameSpec | rust/invadrust/src/main.rs:73-76 | A frame (queued commands, movement, collision, markers, animation, each flushed) keeps the store well formed. |
| Game.LaterStagesNeverRevive | rust/invadrust/src/main.rs:73-76 | An issued id that is gone stays gone through the collision, marker and animation stages. |
| Game.FrameNeverRevives | rust/invadrust/src/main.rs:73-76 | Ids are never reused: an issued id whose entity is gone is not live after a frame. |
| Game.World.constructor | rust/invadrust/src/main.rs:61 | A new world is empty and well formed, with no id handed out yet. |
| Game.World.Flush | rust/invadrust/src/main.rs:128 | Applying the queue in place leaves the world in the state the specification flush gives, and well formed. |
| Game.World.MoveEntity | rust/invadrust/src/main.rs:114-130 | One iteration of the movement loop rewrites that entity to its moved self and queues its despawn exactly when the moved entity is out of bounds with auto-despawn. |
| Game.World.MovableSystem | rust/invadrust/src/main.rs:109-132 | The movement loop leaves the world equal to the moved store and returns exactly the specified despawns, in query order. |
| Game.World.TestLaser | rust/invadrust/src/main.rs:142-164 | The inner loop for one laser returns exactly that laser's pass over all enemies. |
| Game.World.PlayerLaserHitEnemySystem | rust/invadrust/src/main.rs:134-166 | The nested loop returns exactly the specified collision queue and changes no entity. |
| Game.World.ExplosionToSpawnSystem | rust/invadrust/src/main.rs:168-189 | The marker loop returns exactly the specified marker queue and changes no entity. |
| Game.World.AnimateEntity | rust/invadrust/src/main.rs:196-204 | One iteration of the animation loop rewrites that entity to its animated self and queues its despawn exactly when the animated explosion is past its last frame. |
| Game.World.ExplosionAnimationSystem | rust/invadrust/src/main.rs:191-206 | The animation loop leaves the world equal to the animated store and returns exactly the specified despawns, in query order. |
| Game.World.Frame | rust/invadrust/src/main.rs:73-76 | Running the four systems in order, with a flush after each, leaves the world in the state the frame specification gives, and well formed. |
| Scenarios.LaserLeavingTheWindowIsRemoved | rust/invadrust/src/main.rs:116-128 | In the 598 × 676 window, a laser at x = 395 moving right ends at x = 403⅓, past the bound 399, and is gone after the frame. |
| Scenarios.UnitScaleHits | rust/invadrust/src/main.rs:146-152 | With unit scale, a laser and an enemy hit exactly when their sprite-sized boxes overlap. |
| Scenarios.OriginBoxesCollide | rust/invadrust/src/main.rs:146-152 | A 6 × 36 laser box and a 93 × 84 enemy box centred at the same point overlap. |
| Scenarios.DistantBoxesApart | rust/invadrust/src/main.rs:146-152 | A 6 × 36 laser box at the origin and a 93 × 84 enemy box at (500, 500) do not overlap. |
| Scenarios.OriginBoxesOverlap | rust/invadrust/src/main.rs:146-152 | A player laser and an enemy at the origin hit each other. |
| Scenarios.DistantMiss | rust/invadrust/src/main.rs:146-152 | A player laser at the origin and an enemy at (500, 500) miss each other. |
| Scenarios.FlushOneHit | rust/invadrust/src/main.rs:156-162 | Flushing one hit's three commands in a world of ids 0 and 1 leaves only the marker, as id 2. |
| Scenarios.OneHitLeavesOneMarker | rust/invadrust/src/main.rs:134-166 | A laser and an enemy that hit each other are both gone after collision and the flush, leaving one marker at the enemy's position. |
| Scenarios.OneMissChangesNothing | rust/invadrust/src/main.rs:134-166 | A laser and an enemy that miss each other are left as they were by the collision stage. |
| Scenarios.StillWorldStaysPut | rust/invadrust/src/main.rs:109-132 | A world without movable entities is left as it was by the movement stage. |
| Scenarios.FlushReplaceOne | rust/invadrust/src/main.rs:175-187 | Flushing an explosion spawn and the marker's despawn in a world of the marker alone leaves only the explosion, with the next id. |
| Scenarios.OneMarkerBecomesOneExplosion | rust/invadrust/src/main.rs:173-188 | A single marker becomes a single explosion at its position, with the next id. |
| Scenarios.FreshExplosionOutlivesOneTick | rust/invadrust/src/main.rs:196-204 | A fresh explosion survives its first animation stage with its timer ticked once. |
| Scenarios.OneHitFrameLeavesOneExplosion | rust/invadrust/src/main.rs:73-76 | After a full frame, a laser and an enemy that hit each other are gone, and the only live entity is one explosion at the enemy's position. |
| Scenarios.LaserMeetingEnemyFrame | rust/invadrust/src/main.rs:73-76 | A laser and an enemy both at the origin leave exactly one explosion, at the origin, after one frame. |
| Scenarios.NoMarkersFound | rust/invadrust/src/main.rs:173 | Where no entity is a marker, the marker query finds none. |
| Scenarios.NoMarkersStaysPut | rust/invadrust/src/main.rs:168-189 | A world without markers is left as it was by the marker stage. |
| Scenarios.NoExplosionsStayPut | rust/invadrust/src/main.rs:191-206 | A world without explosions is left as it was by the animation stage. |
| Scenarios.OneMissFrameChangesNothing | rust/invadrust/src/main.rs:73-76 | After a full frame, a laser and an enemy that miss each other are both as they were, and nothing is spawned. |
| Scenarios.LaserMissingEnemyFrame | rust/invadrust/src/main.rs:73-76 | A laser at the origin and an enemy at (500, 500) are left unchanged by a frame. |

## Left out

- `main` and the `App` builder (rust/invadrust/src/main.rs:60-78) are engine wiring. The
  model keeps only the order of the four systems, and the window size 598 × 676 as
  `GameWindow`.
- `setup_system` (rust/invadrust/src/main.rs:80-107) is camera, asset and window set-up. The
  window size is a `WinSize` parameter and the explosion atlas is an opaque handle.
- `GameTextures` (rust/invadrust/src/main.rs:52-58) holds rendering handles with no logic.
- The `println!` diagnostic (rust/invadrust/src/main.rs:127) is output only.
- `f32` arithmetic is modelled with reals: rounding in `TIME_STEP` and in position sums is not
  captured.
- The body of `collide` (rust/invadrust/src/main.rs:5) is library code that is not part of
  this model. It is modelled as strict overlap of the two boxes on both axes, using full sizes,
  so boxes that only touch do not collide. The side of the hit that `collide` reports is not
  modelled, because the system only tests whether there was one.
- Bevy's `Timer` and `time.delta()` are not part of this model. The explosion timer is modelled
  over whole nanoseconds, with a period and a mode:
  - A repeating timer adds the frame's elapsed time, finishes when the period is reached, and
    wraps modulo the period.
  - A one-shot timer stops at the period when it finishes, then ignores every later tick and
    stays finished.
  - Pausing and the count of finishes within one tick are left out: the systems never pause the
    timer and read only whether it finished.
  - A zero period is left out: the `Period` type is positive. Bevy accepts a zero duration,
    where a one-shot timer finishes on every tick and a repeating one divides by zero inside
    its tick.
- Explosions.FreshTimer: the period and the mode `ExplosionTimer::default()` gives are not
  fixed by the model, because they are defined in `components.rs`, which is not part of this
  model. Every member that spawns or animates an explosion takes them as a `TimerSetting`
  parameter, and the animation lemmas hold in either mode.
- The `player`, `enemy` and `components` modules (rust/invadrust/src/main.rs:25-27) are not
  part of this model, so enemy lasers, player input and enemy spawning are left out. The
  constants `PLAYER_SIZE`, `ENEMY_LASER_SPRITE` and `ENEMY_LASER_SIZE` are declared but used by
  no modelled system.
- Transforms keep translation and scale only. Rotation plays no part in any modelled system.
- Query iteration order is modelled as spawn order. Bevy iterates in archetype and table order,
  which the code does not rely on for anything but the order of the queued commands.
- Scheduling: the model runs the four systems one after the other in registration order and
  flushes the command buffer after each. In the engine the four systems share one stage, their
  relative order is not pinned, and their commands are applied when the stage ends.
- Concurrency: the model is sequential.
