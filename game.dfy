/**
 * The game world as the engine holds it: the entity store, updated in place by the
 * systems, and the command buffer they append to. One frame runs the movement,
 * collision, marker and animation systems in their registration order, flushing the
 * command buffer after each.
 */
module Game {
  import opened Geometry
  import opened Components
  import opened CommandBuffer
  import opened Movement
  import opened Collision
  import opened Explosions
  import opened Animation

  /**
   * One frame: commands queued before it are applied, then each system runs and its
   * commands are applied before the next one starts.
   */
  function FrameSpec(s: Store, queued: seq<Command>, win: WinSize, atlas: AtlasHandle, setting: TimerSetting, delta: nat): (r: Store)
    ensures Valid(s) ==> Valid(r)
  {
    var s0 := ApplyAll(s, queued);
    var s1 := MoveAndFlush(s0, win);
    var s2 := CollideAndFlush(s1);
    var s3 := MarkersAndFlush(s2, atlas, setting);
    AnimateAndFlush(s3, delta)
  }

  /** The stages after movement: collision, markers and animation, each followed by a flush. */
  lemma LaterStagesNeverRevive(s: Store, atlas: AtlasHandle, setting: TimerSetting, delta: nat, id: EntityId)
    requires id < s.nextId && id !in s.entities
    ensures var s2 := CollideAndFlush(s);
            var s3 := MarkersAndFlush(s2, atlas, setting);
            && id < s2.nextId && id !in s2.entities
            && id < s3.nextId && id !in s3.entities
            && id !in AnimateAndFlush(s3, delta).entities
  {
    ApplyAllSurvivors(s, CollisionCommands(s.order, s.order, s.entities), id);
    var s2 := CollideAndFlush(s);
    ApplyAllSurvivors(s2, MarkerCommands(s2.order, s2.entities, atlas, setting), id);
    var s3 := MarkersAndFlush(s2, atlas, setting);
    var a := AnimateStore(s3, delta);
    ApplyAllSurvivors(a, AnimationDespawns(s3.order, a.entities), id);
  }

  /**
   * Ids are never reused: an id the store has handed out and whose entity is gone is
   * not live again after a frame.
   */
  lemma FrameNeverRevives(s: Store, queued: seq<Command>, win: WinSize, atlas: AtlasHandle, setting: TimerSetting, delta: nat, id: EntityId)
    requires id < s.nextId && id !in s.entities
    ensures id !in FrameSpec(s, queued, win, atlas, setting, delta).entities
  {
    ApplyAllSurvivors(s, queued, id);
    var s0 := ApplyAll(s, queued);
    var m := MoveStore(s0);
    var cmds := MoveDespawns(s0.order, m.entities, win);
    DespawnsSpawnNothing(cmds);
    ApplyAllSurvivors(m, cmds, id);
    LaterStagesNeverRevive(MoveAndFlush(s0, win), atlas, setting, delta, id);
  }

  class World {
    var entities: map<EntityId, Entity>
    /** The order in which queries visit the live entities. */
    var order: seq<EntityId>
    var nextId: EntityId

    function State(): Store
      reads this
    {
      Store(entities, order, nextId)
    }

    ghost predicate Valid()
      reads this
    {
      CommandBuffer.Valid(State())
    }

    constructor ()
      ensures Valid() && State() == Store(map[], [], 0)
    {
      entities, order, nextId := map[], [], 0;
    }

    /** Applies a command queue in order; despawning a missing entity does nothing. */
    method Flush(cmds: seq<Command>)
      requires Valid()
      modifies this
      ensures Valid()
      ensures State() == ApplyAll(old(State()), cmds)
    {
      var i := 0;
      while i < |cmds|
        invariant 0 <= i <= |cmds|
        invariant State() == ApplyAll(old(State()), cmds[..i])
      {
        ApplyAllPrefix(old(State()), cmds, i);
        match cmds[i] {
          case Spawn(e) =>
            entities := entities[nextId := e];
            order := order + [nextId];
            nextId := nextId + 1;
          case Despawn(id) =>
            if id in entities {
              entities := entities - {id};
              order := Without(order, id);
            } else {
              DespawnAbsentIsNoOp(State(), id);
            }
        }
        i := i + 1;
      }
      assert cmds[..i] == cmds;
    }

    /** The body of `movable_system` for one entity: move it, and queue its despawn if it left the bounds. */
    method MoveEntity(id: EntityId, win: WinSize) returns (queued: seq<Command>)
      requires id in entities
      modifies this`entities
      ensures entities == old(entities)[id := Moved(old(entities)[id])]
      ensures queued == if DespawnedByMove(Moved(old(entities)[id]), win) then [Despawn(id)] else []
    {
      queued := [];
      var e := entities[id];
      if InMovableQuery(e) {
        var tf := e.transform.value;
        var velocity := e.velocity.value;
        var translation := tf.translation;
        translation := translation.(x := translation.x + velocity.x * TimeStep * BaseSpeed);
        translation := translation.(y := translation.y + velocity.y * TimeStep * BaseSpeed);
        entities := entities[id := e.(transform := Some(tf.(translation := translation)))];
        if e.movable.value.autoDespawn {
          if translation.y > win.h / 2.0 + Margin
             || translation.y < -win.h / 2.0 - Margin
             || translation.x > win.w / 2.0 + Margin
             || translation.x < -win.w / 2.0 - Margin
          {
            queued := [Despawn(id)];
          }
        }
      } else {
        assert entities == entities[id := e];
      }
    }

    /** `movable_system`: moves every movable entity in place and queues the despawn of those gone out of bounds. */
    method MovableSystem(win: WinSize) returns (cmds: seq<Command>)
      requires Valid()
      modifies this`entities
      ensures State() == MoveStore(old(State()))
      ensures cmds == MoveDespawns(order, entities, win)
    {
      var ents0 := entities;
      ghost var moved := MoveStore(State()).entities;
      cmds := [];
      var i := 0;
      while i < |order|
        invariant 0 <= i <= |order|
        invariant entities == UpdatedAt(ents0, order[..i], moved)
        invariant cmds == MoveDespawns(order[..i], moved, win)
      {
        var id := order[i];
        VisitStep(old(State()), moved, i);
        MoveDespawnsStep(order, moved, win, i);
        assert moved[id] == Moved(ents0[id]);
        var queued := MoveEntity(id, win);
        cmds := cmds + queued;
        i := i + 1;
      }
      assert order[..i] == order;
      UpdatedAtAll(old(State()), moved);
    }

    /** The inner loop of `player_laser_hit_enemy_system`: one player laser tested against every enemy. */
    method TestLaser(laserId: EntityId) returns (cmds: seq<Command>)
      requires laserId in entities && InLaserQuery(entities[laserId])
      ensures cmds == LaserPass(laserId, order, entities)
    {
      var laser := entities[laserId];
      var laserTf := laser.transform.value;
      var laserScale := Xy(laserTf.scale);
      cmds := [];
      var j := 0;
      while j < |order|
        invariant 0 <= j <= |order|
        invariant cmds == LaserPass(laserId, order[..j], entities)
      {
        var enemyId := order[j];
        assert order[..j + 1][..j] == order[..j];
        if enemyId in entities && InEnemyQuery(entities[enemyId]) {
          var enemy := entities[enemyId];
          var enemyTf := enemy.transform.value;
          var enemyScale := Xy(enemyTf.scale);
          var collision := Collide(laserTf.translation, Mul(laser.spriteSize.value, laserScale),
                                   enemyTf.translation, Mul(enemy.spriteSize.value, enemyScale));
          assert collision == PairHits(entities, laserId, enemyId);
          if collision {
            cmds := cmds + [Despawn(enemyId), Despawn(laserId), Spawn(Marker(enemyTf.translation))];
          }
        }
        j := j + 1;
      }
      assert order[..j] == order;
    }

    /** `player_laser_hit_enemy_system`: tests every player laser against every enemy and queues what each hit causes. */
    method PlayerLaserHitEnemySystem() returns (cmds: seq<Command>)
      ensures cmds == CollisionCommands(order, order, entities)
    {
      cmds := [];
      var i := 0;
      while i < |order|
        invariant 0 <= i <= |order|
        invariant cmds == CollisionCommands(order[..i], order, entities)
      {
        var laserId := order[i];
        assert order[..i + 1][..i] == order[..i];
        if laserId in entities && InLaserQuery(entities[laserId]) {
          var pass := TestLaser(laserId);
          cmds := cmds + pass;
        }
        i := i + 1;
      }
      assert order[..i] == order;
    }

    /** `explosion_to_spawn_system`: turns every marker into an explosion and queues the marker's despawn. */
    method ExplosionToSpawnSystem(atlas: AtlasHandle, setting: TimerSetting) returns (cmds: seq<Command>)
      ensures cmds == MarkerCommands(order, entities, atlas, setting)
    {
      cmds := [];
      var i := 0;
      while i < |order|
        invariant 0 <= i <= |order|
        invariant cmds == MarkerCommands(order[..i], entities, atlas, setting)
      {
        var markerId := order[i];
        assert order[..i + 1][..i] == order[..i];
        if markerId in entities && InMarkerQuery(entities[markerId]) {
          var e := entities[markerId];
          cmds := cmds + [Spawn(NewExplosion(e.explosionToSpawn.value, atlas, setting)), Despawn(markerId)];
        }
        i := i + 1;
      }
      assert order[..i] == order;
    }

    /** The body of `explosion_animation_system` for one entity: tick its timer, advance its frame, queue its despawn past the last frame. */
    method AnimateEntity(id: EntityId, delta: nat) returns (queued: seq<Command>)
      requires id in entities
      modifies this`entities
      ensures entities == old(entities)[id := Animated(old(entities)[id], delta)]
      ensures queued == if DespawnedByAnimation(Animated(old(entities)[id], delta)) then [Despawn(id)] else []
    {
      queued := [];
      var e := entities[id];
      if InAnimationQuery(e) {
        var timer := TickTimer(e.explosionTimer.value, delta);
        var index := e.sprite.value;
        if timer.finished {
          index := index + 1;
          if index >= ExplosionLen {
            queued := [Despawn(id)];
          }
        }
        entities := entities[id := e.(explosionTimer := Some(timer), sprite := Some(index))];
      } else {
        assert entities == entities[id := e];
      }
    }

    /** `explosion_animation_system`: ticks every explosion's timer, advances its frame and queues its despawn past the last frame. */
    method ExplosionAnimationSystem(delta: nat) returns (cmds: seq<Command>)
      requires Valid()
      modifies this`entities
      ensures State() == AnimateStore(old(State()), delta)
      ensures cmds == AnimationDespawns(order, entities)
    {
      var ents0 := entities;
      ghost var animated := AnimateStore(State(), delta).entities;
      cmds := [];
      var i := 0;
      while i < |order|
        invariant 0 <= i <= |order|
        invariant entities == UpdatedAt(ents0, order[..i], animated)
        invariant cmds == AnimationDespawns(order[..i], animated)
      {
        var id := order[i];
        VisitStep(old(State()), animated, i);
        AnimationDespawnsStep(order, animated, i);
        assert animated[id] == Animated(ents0[id], delta);
        var queued := AnimateEntity(id, delta);
        cmds := cmds + queued;
        i := i + 1;
      }
      assert order[..i] == order;
      UpdatedAtAll(old(State()), animated);
    }

    /**
     * One frame: the commands other plugins queued are applied, then each system runs
     * and its commands are applied before the next system starts.
     */
    method Frame(queued: seq<Command>, win: WinSize, atlas: AtlasHandle, setting: TimerSetting, delta: nat)
      requires Valid()
      modifies this
      ensures Valid()
      ensures State() == FrameSpec(old(State()), queued, win, atlas, setting, delta)
    {
      Flush(queued);
      ghost var s0 := State();
      var moves := MovableSystem(win);
      Flush(moves);
      assert State() == MoveAndFlush(s0, win);
      ghost var s1 := State();
      var hits := PlayerLaserHitEnemySystem();
      Flush(hits);
      assert State() == CollideAndFlush(s1);
      ghost var s2 := State();
      var explosions := ExplosionToSpawnSystem(atlas, setting);
      Flush(explosions);
      assert State() == MarkersAndFlush(s2, atlas, setting);
      ghost var s3 := State();
      var frames := ExplosionAnimationSystem(delta);
      Flush(frames);
      assert State() == AnimateAndFlush(s3, delta);
    }
  }
}
