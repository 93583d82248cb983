/**
 * Frames and stages on small concrete worlds in the game's own window: a laser leaving
 * the screen, a laser meeting an enemy, and a laser passing an enemy by.
 */
module Scenarios {
  import opened Geometry
  import opened Components
  import opened CommandBuffer
  import opened Movement
  import opened Collision
  import opened Explosions
  import opened Animation
  import opened Game

  const Origin: Vec3 := Vec3(0.0, 0.0, 0.0)
  const UnitScale: Vec3 := Vec3(1.0, 1.0, 1.0)

  /** A player laser at `t` with unit scale; it moves with `velocity`, auto-despawning, when one is given. */
  function PlayerLaser(t: Vec3, velocity: Option<Vec2>): Entity {
    Entity(Some(Transform(t, UnitScale)), velocity, if velocity.Some? then Some(Movable(true)) else None,
           Some(PlayerLaserSize), true, true, false, None, false, None, None, None)
  }

  /** An enemy at `t` with unit scale. */
  function Enemy(t: Vec3): Entity {
    Entity(Some(Transform(t, UnitScale)), None, None, Some(EnemySize), false, false, true,
           None, false, None, None, None)
  }

  /**
   * A laser at x = 395 moving right at speed 1 ends the movement stage at x = 403⅓,
   * past the right bound 598 / 2 + 100 = 399, and is not live after the frame.
   */
  lemma LaserLeavingTheWindowIsRemoved(atlas: AtlasHandle, setting: TimerSetting, delta: nat)
    ensures var s := Store(map[0 := PlayerLaser(Vec3(395.0, 0.0, 0.0), Some(Vec2(1.0, 0.0)))], [0], 1);
            0 !in FrameSpec(s, [], GameWindow, atlas, setting, delta).entities
  {
    var laser := PlayerLaser(Vec3(395.0, 0.0, 0.0), Some(Vec2(1.0, 0.0)));
    var s := Store(map[0 := laser], [0], 1);
    assert Valid(s);
    MovedByVelocity(laser);
    assert DespawnedByMove(Moved(laser), GameWindow);
    MoveAndFlushOutcome(s, GameWindow, 0);
    assert ApplyAll(s, []) == s;
    LaterStagesNeverRevive(MoveAndFlush(s, GameWindow), atlas, setting, delta, 0);
  }

  /** With unit scale, a laser and an enemy hit each other exactly when their sprite-sized boxes overlap. */
  lemma UnitScaleHits(laser: Entity, enemy: Entity)
    requires laser.transform.Some? && laser.spriteSize.Some? && laser.transform.value.scale == UnitScale
    requires enemy.transform.Some? && enemy.spriteSize.Some? && enemy.transform.value.scale == UnitScale
    ensures Hits(laser, enemy) <==>
            && InLaserQuery(laser) && InEnemyQuery(enemy)
            && Collide(laser.transform.value.translation, laser.spriteSize.value,
                       enemy.transform.value.translation, enemy.spriteSize.value)
  {
    assert Box(laser) == laser.spriteSize.value;
    assert Box(enemy) == enemy.spriteSize.value;
  }

  /** A 6 × 36 box and a 93 × 84 box centred at the same point overlap. */
  lemma OriginBoxesCollide()
    ensures Collide(Origin, PlayerLaserSize, Origin, EnemySize)
  {
  }

  /** A 6 × 36 box at the origin and a 93 × 84 box centred at (500, 500) are apart. */
  lemma DistantBoxesApart()
    ensures !Collide(Origin, PlayerLaserSize, Vec3(500.0, 500.0, 0.0), EnemySize)
  {
  }

  /** The laser at the origin hits the enemy at the origin. */
  lemma OriginBoxesOverlap()
    ensures Hits(PlayerLaser(Origin, None), Enemy(Origin))
  {
    UnitScaleHits(PlayerLaser(Origin, None), Enemy(Origin));
    OriginBoxesCollide();
  }

  /** The laser at the origin misses the enemy at (500, 500). */
  lemma DistantMiss()
    ensures !Hits(PlayerLaser(Origin, None), Enemy(Vec3(500.0, 500.0, 0.0)))
  {
    UnitScaleHits(PlayerLaser(Origin, None), Enemy(Vec3(500.0, 500.0, 0.0)));
    DistantBoxesApart();
  }

  /** Flushing a hit's three commands in a world of exactly entities 0 and 1 leaves only the marker, as entity 2. */
  lemma FlushOneHit(s: Store, m: Entity)
    requires s.entities.Keys == {0, 1} && s.order == [0, 1] && s.nextId == 2
    ensures ApplyAll(s, [Despawn(1), Despawn(0), Spawn(m)]) == Store(map[2 := m], [2], 3)
  {
    var cmds := [Despawn(1), Despawn(0), Spawn(m)];
    var s1 := Apply(s, Despawn(1));
    assert Without([0, 1], 1) == [0];
    assert s1.order == [0] && s1.entities.Keys == {0};
    var s2 := Apply(s1, Despawn(0));
    assert s2.order == [] && s2.entities == map[];
    var s3 := Apply(s2, Spawn(m));
    assert s3 == Store(map[2 := m], [2], 3);
    assert cmds[1..] == [Despawn(0), Spawn(m)] && cmds[1..][1..] == [Spawn(m)];
    assert ApplyAll(s, cmds) == ApplyAll(s1, [Despawn(0), Spawn(m)]);
    assert ApplyAll(s1, [Despawn(0), Spawn(m)]) == ApplyAll(s2, [Spawn(m)]);
    assert ApplyAll(s2, [Spawn(m)]) == ApplyAll(s3, []);
  }

  /**
   * A world of one player laser (id 0) and one enemy (id 1) that hit each other: after the
   * collision stage both are gone and the only live entity is one marker at the enemy's
   * position, with id 2.
   */
  lemma OneHitLeavesOneMarker(laser: Entity, enemy: Entity)
    requires Hits(laser, enemy) && !laser.enemy && !enemy.laser
    ensures var s := Store(map[0 := laser, 1 := enemy], [0, 1], 2);
            CollideAndFlush(s) == Store(map[2 := Marker(enemy.transform.value.translation)], [2], 3)
  {
    var ents := map[0 := laser, 1 := enemy];
    assert ents[0] == laser && ents[1] == enemy;
    assert [0, 1][..1] == [0] && [0][..0] == [];
    var cmds := [Despawn(1), Despawn(0), Spawn(Marker(enemy.transform.value.translation))];
    assert LaserPass(0, [0], ents) == [];
    assert LaserPass(0, [0, 1], ents) == cmds;
    assert CollisionCommands([0], [0, 1], ents) == cmds;
    assert CollisionCommands([0, 1], [0, 1], ents) == cmds;
    FlushOneHit(Store(ents, [0, 1], 2), cmds[2].components);
  }

  /** A world of one player laser (id 0) and one enemy (id 1) that miss each other: the collision stage changes nothing. */
  lemma OneMissChangesNothing(laser: Entity, enemy: Entity)
    requires !Hits(laser, enemy) && !laser.enemy && !enemy.laser
    ensures var s := Store(map[0 := laser, 1 := enemy], [0, 1], 2);
            CollideAndFlush(s) == s
  {
    var ents := map[0 := laser, 1 := enemy];
    assert ents[0] == laser && ents[1] == enemy;
    assert [0, 1][..1] == [0] && [0][..0] == [];
    assert LaserPass(0, [0], ents) == [];
    assert LaserPass(0, [0, 1], ents) == [];
    assert CollisionCommands([0], [0, 1], ents) == [];
    assert CollisionCommands([0, 1], [0, 1], ents) == [];
  }

  /** A world where nothing is movable is left as it was by the movement stage. */
  lemma StillWorldStaysPut(s: Store, win: WinSize)
    requires Valid(s)
    requires forall id :: id in s.entities ==> !InMovableQuery(s.entities[id])
    ensures MoveAndFlush(s, win) == s
  {
    var m := MoveStore(s);
    assert m.entities == s.entities;
    var cmds := MoveDespawns(s.order, m.entities, win);
    if cmds != [] {
      MoveDespawnsIff(s.order, m.entities, win, cmds[0].id);
    }
    assert ApplyAll(m, []) == s;
  }

  /** Flushing a spawn and then the despawn of entity 2, in a world of entity 2 alone, leaves only the spawned entity, as entity 3. */
  lemma FlushReplaceOne(s: Store, x: Entity)
    requires s.entities.Keys == {2} && s.order == [2] && s.nextId == 3
    ensures ApplyAll(s, [Spawn(x), Despawn(2)]) == Store(map[3 := x], [3], 4)
  {
    var cmds := [Spawn(x), Despawn(2)];
    var s1 := Apply(s, Spawn(x));
    assert s1.order == [2, 3] && s1.entities.Keys == {2, 3} && s1.entities[3] == x;
    assert Without([2, 3], 2) == [3];
    var s2 := Apply(s1, Despawn(2));
    assert s2.entities == map[3 := x];
    assert cmds[1..] == [Despawn(2)] && cmds[1..][1..] == [];
    assert ApplyAll(s, cmds) == ApplyAll(s1, [Despawn(2)]);
    assert ApplyAll(s1, [Despawn(2)]) == ApplyAll(s2, []);
  }

  /** A world holding one marker, as entity 2, holds one explosion at the marker's position, as entity 3, after the marker stage. */
  lemma OneMarkerBecomesOneExplosion(t: Vec3, atlas: AtlasHandle, setting: TimerSetting)
    ensures MarkersAndFlush(Store(map[2 := Marker(t)], [2], 3), atlas, setting)
            == Store(map[3 := NewExplosion(t, atlas, setting)], [3], 4)
  {
    var s := Store(map[2 := Marker(t)], [2], 3);
    assert [2][..0] == [];
    assert MarkerCommands([2], s.entities, atlas, setting) == [Spawn(NewExplosion(t, atlas, setting)), Despawn(2)];
    FlushReplaceOne(s, NewExplosion(t, atlas, setting));
  }

  /** A fresh explosion, alone as entity 3, is still the only entity after one animation stage, with its timer ticked once. */
  lemma FreshExplosionOutlivesOneTick(x: Entity, delta: nat)
    requires InAnimationQuery(x) && x.sprite == Some(0)
    ensures var r := AnimateAndFlush(Store(map[3 := x], [3], 4), delta);
            r.entities.Keys == {3} && r.entities[3] == Animated(x, delta)
  {
    var s := Store(map[3 := x], [3], 4);
    assert Valid(s);
    AnimateAndFlushOutcome(s, delta, 3);
    var a := AnimateStore(s, delta);
    var cmds := AnimationDespawns(s.order, a.entities);
    DespawnsSpawnNothing(cmds);
    var r := AnimateAndFlush(s, delta);
    forall id | id in r.entities
      ensures id == 3
    {
      LiveIdsAreIssued(a, cmds, id);
      ApplyAllSurvivors(a, cmds, id);
    }
  }

  /**
   * A frame of a world of one player laser (id 0) and one enemy (id 1), neither movable,
   * that hit each other: when the frame ends both are gone and the only live entity is
   * one explosion at the enemy's position, on its first animation tick.
   */
  lemma OneHitFrameLeavesOneExplosion(laser: Entity, enemy: Entity, win: WinSize, atlas: AtlasHandle, setting: TimerSetting, delta: nat)
    requires Hits(laser, enemy) && !laser.enemy && !enemy.laser
    requires !InMovableQuery(laser) && !InMovableQuery(enemy)
    ensures var s := Store(map[0 := laser, 1 := enemy], [0, 1], 2);
            var r := FrameSpec(s, [], win, atlas, setting, delta);
            var x := NewExplosion(enemy.transform.value.translation, atlas, setting);
            r.entities.Keys == {3} && r.entities[3] == Animated(x, delta)
  {
    var s := Store(map[0 := laser, 1 := enemy], [0, 1], 2);
    assert Valid(s);
    assert ApplyAll(s, []) == s;
    StillWorldStaysPut(s, win);
    OneHitLeavesOneMarker(laser, enemy);
    var t := enemy.transform.value.translation;
    OneMarkerBecomesOneExplosion(t, atlas, setting);
    FreshExplosionOutlivesOneTick(NewExplosion(t, atlas, setting), delta);
  }

  /**
   * A player laser and an enemy both at the origin, in the game's window: after one frame
   * both are gone and exactly one explosion exists, at the origin.
   */
  lemma LaserMeetingEnemyFrame(atlas: AtlasHandle, setting: TimerSetting, delta: nat)
    ensures var s := Store(map[0 := PlayerLaser(Origin, None), 1 := Enemy(Origin)], [0, 1], 2);
            var r := FrameSpec(s, [], GameWindow, atlas, setting, delta);
            && r.entities.Keys == {3}
            && r.entities[3] == Animated(NewExplosion(Origin, atlas, setting), delta)
  {
    var laser, enemy := PlayerLaser(Origin, None), Enemy(Origin);
    assert !InMovableQuery(laser) && !InMovableQuery(enemy);
    OriginBoxesOverlap();
    OneHitFrameLeavesOneExplosion(laser, enemy, GameWindow, atlas, setting, delta);
  }

  /** Where no entity is a marker, the marker system finds none. */
  lemma {:induction false} NoMarkersFound(ids: seq<EntityId>, ents: map<EntityId, Entity>)
    requires forall id :: id in ents ==> !InMarkerQuery(ents[id])
    ensures Markers(ids, ents) == []
  {
    if |ids| > 0 {
      NoMarkersFound(ids[..|ids| - 1], ents);
    }
  }

  /** A world without markers is left as it was by the marker stage. */
  lemma NoMarkersStaysPut(s: Store, atlas: AtlasHandle, setting: TimerSetting)
    requires forall id :: id in s.entities ==> !InMarkerQuery(s.entities[id])
    ensures MarkersAndFlush(s, atlas, setting) == s
  {
    MarkerCommandsShape(s.order, s.entities, atlas, setting);
    NoMarkersFound(s.order, s.entities);
    assert ApplyAll(s, []) == s;
  }

  /** A world without explosions is left as it was by the animation stage. */
  lemma NoExplosionsStayPut(s: Store, delta: nat)
    requires Valid(s)
    requires forall id :: id in s.entities ==> !InAnimationQuery(s.entities[id])
    ensures AnimateAndFlush(s, delta) == s
  {
    var a := AnimateStore(s, delta);
    assert a.entities == s.entities;
    var cmds := AnimationDespawns(s.order, a.entities);
    if cmds != [] {
      AnimationDespawnsIff(s.order, a.entities, cmds[0].id);
    }
    assert ApplyAll(a, []) == s;
  }

  /**
   * A frame of a world of one player laser (id 0) and one enemy (id 1), neither movable,
   * marker nor explosion, that miss each other: the frame changes nothing.
   */
  lemma OneMissFrameChangesNothing(laser: Entity, enemy: Entity, win: WinSize, atlas: AtlasHandle, setting: TimerSetting, delta: nat)
    requires !Hits(laser, enemy) && !laser.enemy && !enemy.laser
    requires !InMovableQuery(laser) && !InMovableQuery(enemy)
    requires !InMarkerQuery(laser) && !InMarkerQuery(enemy)
    requires !InAnimationQuery(laser) && !InAnimationQuery(enemy)
    ensures var s := Store(map[0 := laser, 1 := enemy], [0, 1], 2);
            FrameSpec(s, [], win, atlas, setting, delta) == s
  {
    var s := Store(map[0 := laser, 1 := enemy], [0, 1], 2);
    assert Valid(s);
    assert ApplyAll(s, []) == s;
    StillWorldStaysPut(s, win);
    OneMissChangesNothing(laser, enemy);
    NoMarkersStaysPut(s, atlas, setting);
    NoExplosionsStayPut(s, delta);
  }

  /**
   * A player laser at the origin and an enemy at (500, 500), in the game's window: the
   * frame leaves both as they were and spawns nothing.
   */
  lemma LaserMissingEnemyFrame(atlas: AtlasHandle, setting: TimerSetting, delta: nat)
    ensures var s := Store(map[0 := PlayerLaser(Origin, None), 1 := Enemy(Vec3(500.0, 500.0, 0.0))], [0, 1], 2);
            FrameSpec(s, [], GameWindow, atlas, setting, delta) == s
  {
    var laser, enemy := PlayerLaser(Origin, None), Enemy(Vec3(500.0, 500.0, 0.0));
    assert !InMovableQuery(laser) && !InMovableQuery(enemy);
    DistantMiss();
    OneMissFrameChangesNothing(laser, enemy, GameWindow, atlas, setting, delta);
  }
}
