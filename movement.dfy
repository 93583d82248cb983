/**
 * The movement system: every movable entity advances by its velocity scaled by the
 * fixed time step and the base speed, and an auto-despawning entity that ends up
 * beyond the window edge plus the margin is queued for despawn.
 */
module Movement {
  import opened Geometry
  import opened Components
  import opened CommandBuffer

  /** How far an entity with velocity `v` travels in one tick. */
  function Displacement(v: Vec2): Vec2 {
    Vec2(v.x * TimeStep * BaseSpeed, v.y * TimeStep * BaseSpeed)
  }

  /** Strictly beyond half the window extent plus the margin, on either axis, in either direction. */
  predicate OutOfBounds(t: Vec3, win: WinSize) {
    || t.y > win.h / 2.0 + Margin
    || t.y < -win.h / 2.0 - Margin
    || t.x > win.w / 2.0 + Margin
    || t.x < -win.w / 2.0 - Margin
  }

  /** The entity after one tick of movement. Only the translation of a movable entity changes. */
  function Moved(e: Entity): (r: Entity)
    ensures r.(transform := e.transform) == e
    ensures !InMovableQuery(e) ==> r == e
    ensures InMovableQuery(r) == InMovableQuery(e)
    ensures InMovableQuery(e) ==>
              && r.transform.value.scale == e.transform.value.scale
              && r.transform.value.translation.z == e.transform.value.translation.z
  {
    if InMovableQuery(e) then
      var tf := e.transform.value;
      var d := Displacement(e.velocity.value);
      var t := tf.translation;
      e.(transform := Some(tf.(translation := t.(x := t.x + d.x, y := t.y + d.y))))
    else e
  }

  /** The moved entity is the one the movement system queues for despawn. */
  predicate DespawnedByMove(e: Entity, win: WinSize) {
    InMovableQuery(e) && e.movable.value.autoDespawn && OutOfBounds(e.transform.value.translation, win)
  }

  /** The store after every entity has moved; no entity appears or disappears. */
  function MoveStore(s: Store): (r: Store)
    ensures r.order == s.order && r.nextId == s.nextId && r.entities.Keys == s.entities.Keys
    ensures Valid(s) ==> Valid(r)
  {
    s.(entities := map id | id in s.entities :: Moved(s.entities[id]))
  }

  /**
   * The despawns the movement system queues while visiting `ids` in order, judged on
   * the already moved entities `moved`.
   */
  function MoveDespawns(ids: seq<EntityId>, moved: map<EntityId, Entity>, win: WinSize): (r: seq<Command>)
    ensures |r| <= |ids|
    ensures forall c :: c in r ==> c.Despawn?
  {
    if |ids| == 0 then []
    else
      var id := ids[|ids| - 1];
      MoveDespawns(ids[..|ids| - 1], moved, win)
        + (if id in moved && DespawnedByMove(moved[id], win) then [Despawn(id)] else [])
  }

  /** Visiting one more entity queues at most its own despawn. */
  lemma MoveDespawnsStep(ids: seq<EntityId>, moved: map<EntityId, Entity>, win: WinSize, i: nat)
    requires i < |ids|
    ensures MoveDespawns(ids[..i + 1], moved, win) == MoveDespawns(ids[..i], moved, win)
              + (if ids[i] in moved && DespawnedByMove(moved[ids[i]], win) then [Despawn(ids[i])] else [])
  {
    assert ids[..i + 1][..i] == ids[..i];
  }

  /** The movement system followed by a flush of what it queued. */
  function MoveAndFlush(s: Store, win: WinSize): (r: Store)
    ensures Valid(s) ==> Valid(r)
    ensures r.nextId == s.nextId
  {
    var m := MoveStore(s);
    var cmds := MoveDespawns(s.order, m.entities, win);
    DespawnsSpawnNothing(cmds);
    ApplyAll(m, cmds)
  }

  /** Every movable entity advances by exactly its velocity times 500/60 on each axis. */
  lemma MovedByVelocity(e: Entity)
    requires InMovableQuery(e)
    ensures Moved(e).transform.value.translation.x
            == e.transform.value.translation.x + e.velocity.value.x * (25.0 / 3.0)
    ensures Moved(e).transform.value.translation.y
            == e.transform.value.translation.y + e.velocity.value.y * (25.0 / 3.0)
  {
  }

  /** An entity is queued exactly when it is visited and, after moving, is an auto-despawning one out of bounds. */
  lemma {:induction false} MoveDespawnsIff(ids: seq<EntityId>, moved: map<EntityId, Entity>, win: WinSize, id: EntityId)
    ensures Despawn(id) in MoveDespawns(ids, moved, win) <==>
            id in ids && id in moved && DespawnedByMove(moved[id], win)
  {
    if |ids| > 0 {
      var front := ids[..|ids| - 1];
      MoveDespawnsIff(front, moved, win, id);
      assert ids == front + [ids[|ids| - 1]];
    }
  }

  /**
   * After the movement system and a flush, an entity of the store is still live exactly
   * when it is not an auto-despawning movable entity whose new position is out of
   * bounds, and a survivor carries its moved components. Nothing is spawned.
   */
  lemma MoveAndFlushOutcome(s: Store, win: WinSize, id: EntityId)
    requires Valid(s) && id in s.entities
    ensures id in MoveAndFlush(s, win).entities <==> !DespawnedByMove(Moved(s.entities[id]), win)
    ensures id in MoveAndFlush(s, win).entities ==> MoveAndFlush(s, win).entities[id] == Moved(s.entities[id])
  {
    var m := MoveStore(s);
    MoveDespawnsIff(s.order, m.entities, win, id);
    ApplyAllSurvivors(m, MoveDespawns(s.order, m.entities, win), id);
  }

  /**
   * An entity that does not auto-despawn, or whose new position lies inside the window
   * widened by the margin, boundary included, is never removed by the movement system.
   */
  lemma InsideOrKeptEntitySurvivesMove(s: Store, win: WinSize, id: EntityId)
    requires Valid(s) && id in s.entities
    requires InMovableQuery(s.entities[id])
    requires var t := Moved(s.entities[id]).transform.value.translation;
             || !s.entities[id].movable.value.autoDespawn
             || (&& -win.w / 2.0 - Margin <= t.x <= win.w / 2.0 + Margin
                 && -win.h / 2.0 - Margin <= t.y <= win.h / 2.0 + Margin)
    ensures id in MoveAndFlush(s, win).entities
  {
    MoveAndFlushOutcome(s, win, id);
  }

  /**
   * In the game's 598 × 676 window, a position is out of bounds exactly when it lies
   * more than 399 from the centre horizontally or more than 438 vertically.
   */
  lemma GameWindowBounds(t: Vec3)
    ensures OutOfBounds(t, GameWindow) <==> Abs(t.x) > 399.0 || Abs(t.y) > 438.0
  {
  }
}
