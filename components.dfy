/**
 * The game's configuration constants, its window size resource, and the component
 * record an entity carries. Every component is optional: an entity is in a system's
 * query exactly when it carries the components that query names.
 */
module Components {
  import opened Geometry

  datatype Option<T> = None | Some(value: T)

  type EntityId = nat

  /** A texture-atlas handle. The simulation only copies it onto new explosions. */
  type AtlasHandle = nat

  /** A timer period in nanoseconds (the unit of Bevy's `Duration`); never zero. */
  type Period = p: nat | 0 < p witness 1

  const PlayerSprite: string := "ferry.png"
  const PlayerSize: Vec2 := Vec2(80.0, 54.0)
  const PlayerLaserSprite: string := "laserblue.png"
  const PlayerLaserSize: Vec2 := Vec2(6.0, 36.0)

  const EnemySprite: string := "enemy.png"
  const EnemySize: Vec2 := Vec2(93.0, 84.0)
  const EnemyLaserSprite: string := "lasered.png"
  const EnemyLaserSize: Vec2 := Vec2(9.0, 37.0)

  const ExplosionSheet: string := "explosion.png"
  /** Number of frames in the explosion sprite sheet. */
  const ExplosionLen: nat := 16

  /** The fixed time step, in seconds, and the speed scale applied to every velocity. */
  const TimeStep: real := 1.0 / 60.0
  const BaseSpeed: real := 500.0

  /** How far beyond the window edge an auto-despawning entity may travel. */
  const Margin: real := 100.0

  /** The window size resource. */
  datatype WinSize = WinSize(w: real, h: real)

  /** The window the game opens. */
  const GameWindow: WinSize := WinSize(598.0, 676.0)

  /** A transform; rotation is not modelled. */
  datatype Transform = Transform(translation: Vec3, scale: Vec3)

  datatype Movable = Movable(autoDespawn: bool)

  /** Whether a timer starts over after it finishes, or stays finished. */
  datatype TimerMode = Once | Repeating

  /**
   * A timer: `elapsed` counts up towards `period`, and `finished` records whether the
   * timer has finished (for a repeating timer: whether the last tick reached the period).
   */
  datatype Timer = Timer(period: Period, mode: TimerMode, elapsed: nat, finished: bool)

  /** The period and the mode `ExplosionTimer::default()` gives a new explosion's timer. */
  datatype TimerSetting = TimerSetting(period: Period, mode: TimerMode)

  /** The components of one entity. The three booleans and `explosion` are marker components. */
  datatype Entity = Entity(
    transform: Option<Transform>,
    velocity: Option<Vec2>,
    movable: Option<Movable>,
    spriteSize: Option<Vec2>,
    laser: bool,
    fromPlayer: bool,
    enemy: bool,
    explosionToSpawn: Option<Vec3>,
    explosion: bool,
    explosionTimer: Option<Timer>,
    sprite: Option<nat>,
    atlas: Option<AtlasHandle>)

  /** Query of the movement system: `(Entity, &Velocity, &mut Transform, &Movable)`. */
  predicate InMovableQuery(e: Entity) {
    e.velocity.Some? && e.transform.Some? && e.movable.Some?
  }

  /** Query for player lasers: `(Entity, &Transform, &SpriteSize)` with `Laser` and `FromPlayer`. */
  predicate InLaserQuery(e: Entity) {
    e.transform.Some? && e.spriteSize.Some? && e.laser && e.fromPlayer
  }

  /** Query for enemies: `(Entity, &Transform, &SpriteSize)` with `Enemy`. */
  predicate InEnemyQuery(e: Entity) {
    e.transform.Some? && e.spriteSize.Some? && e.enemy
  }

  /** Query of the marker system: `(Entity, &ExplosionToSpawn)`. */
  predicate InMarkerQuery(e: Entity) {
    e.explosionToSpawn.Some?
  }

  /** Query of the animation system: `(Entity, &mut ExplosionTimer, &mut TextureAtlasSprite)` with `Explosion`. */
  predicate InAnimationQuery(e: Entity) {
    e.explosionTimer.Some? && e.sprite.Some? && e.explosion
  }

  /** The entity `commands.spawn().insert(ExplosionToSpawn(t))` creates: the marker component alone. */
  function Marker(t: Vec3): Entity {
    Entity(None, None, None, None, false, false, false, Some(t), false, None, None, None)
  }
}
