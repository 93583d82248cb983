/**
 * The player-laser/enemy collision system: every player laser is tested against every
 * enemy, in query order, and each overlapping pair queues the enemy's despawn, the
 * laser's despawn and the spawn of an explosion marker at the enemy's translation.
 * Nothing checks whether the laser was already hit in this pass.
 */
module Collision {
  import opened Geometry
  import opened Components
  import opened CommandBuffer

  /** The collision box of an entity: its sprite size times the x and y of its scale. */
  function Box(e: Entity): Vec2
    requires e.transform.Some? && e.spriteSize.Some?
  {
    Mul(e.spriteSize.value, Xy(e.transform.value.scale))
  }

  /** A player laser and an enemy whose boxes overlap. */
  predicate Hits(laser: Entity, enemy: Entity) {
    && InLaserQuery(laser)
    && InEnemyQuery(enemy)
    && Collide(laser.transform.value.translation, Box(laser), enemy.transform.value.translation, Box(enemy))
  }

  /** The live entities `l` and `e` are a laser and an enemy that hit each other. */
  predicate PairHits(ents: map<EntityId, Entity>, l: EntityId, e: EntityId) {
    l in ents && e in ents && Hits(ents[l], ents[e])
  }

  /** The three commands one hit queues, in the order the system queues them. */
  function HitCommands(lid: EntityId, eid: EntityId, enemy: Entity): seq<Command>
    requires enemy.transform.Some?
  {
    [Despawn(eid), Despawn(lid), Spawn(Marker(enemy.transform.value.translation))]
  }

  /** The inner loop: laser `lid` tested against the enemies among `eids`, in order. */
  function LaserPass(lid: EntityId, eids: seq<EntityId>, ents: map<EntityId, Entity>): seq<Command> {
    if |eids| == 0 then []
    else
      var eid := eids[|eids| - 1];
      LaserPass(lid, eids[..|eids| - 1], ents)
        + (if PairHits(ents, lid, eid) then HitCommands(lid, eid, ents[eid]) else [])
  }

  /** The outer loop: every laser among `lids`, in order, runs the inner loop over `eids`. */
  function CollisionCommands(lids: seq<EntityId>, eids: seq<EntityId>, ents: map<EntityId, Entity>): seq<Command> {
    if |lids| == 0 then []
    else
      var lid := lids[|lids| - 1];
      CollisionCommands(lids[..|lids| - 1], eids, ents)
        + (if lid in ents && InLaserQuery(ents[lid]) then LaserPass(lid, eids, ents) else [])
  }

  /** The enemies among `eids` that laser `lid` overlaps, in order. */
  function HitEnemies(lid: EntityId, eids: seq<EntityId>, ents: map<EntityId, Entity>): (r: seq<EntityId>)
    ensures forall e :: e in r <==> e in eids && PairHits(ents, lid, e)
    ensures |r| <= |eids|
    ensures !(lid in ents && InLaserQuery(ents[lid])) ==> r == []
  {
    if |eids| == 0 then []
    else
      var eid := eids[|eids| - 1];
      HitEnemies(lid, eids[..|eids| - 1], ents) + (if PairHits(ents, lid, eid) then [eid] else [])
  }

  /** The number of overlapping (laser, enemy) pairs with the laser among `lids` and the enemy among `eids`. */
  function PairCount(lids: seq<EntityId>, eids: seq<EntityId>, ents: map<EntityId, Entity>): nat {
    if |lids| == 0 then 0
    else PairCount(lids[..|lids| - 1], eids, ents) + |HitEnemies(lids[|lids| - 1], eids, ents)|
  }

  /**
   * The inner loop queues exactly three commands per enemy the laser overlaps, in the
   * enemies' order: that enemy's despawn, the laser's despawn, and a marker at that
   * enemy's translation.
   */
  lemma {:induction false} LaserPassShape(lid: EntityId, eids: seq<EntityId>, ents: map<EntityId, Entity>)
    ensures |LaserPass(lid, eids, ents)| == 3 * |HitEnemies(lid, eids, ents)|
    ensures forall k :: 0 <= k < |HitEnemies(lid, eids, ents)| ==>
              var e := HitEnemies(lid, eids, ents)[k];
              && PairHits(ents, lid, e)
              && LaserPass(lid, eids, ents)[3 * k] == Despawn(e)
              && LaserPass(lid, eids, ents)[3 * k + 1] == Despawn(lid)
              && LaserPass(lid, eids, ents)[3 * k + 2] == Spawn(Marker(ents[e].transform.value.translation))
  {
    if |eids| > 0 {
      var front := eids[..|eids| - 1];
      LaserPassShape(lid, front, ents);
    }
  }

  /** The inner loop spawns exactly one marker per overlapped enemy. */
  lemma {:induction false} LaserPassSpawnCount(lid: EntityId, eids: seq<EntityId>, ents: map<EntityId, Entity>)
    ensures SpawnCount(LaserPass(lid, eids, ents)) == |HitEnemies(lid, eids, ents)|
  {
    if |eids| > 0 {
      var front := eids[..|eids| - 1];
      var eid := eids[|eids| - 1];
      LaserPassSpawnCount(lid, front, ents);
      var tail := if PairHits(ents, lid, eid) then HitCommands(lid, eid, ents[eid]) else [];
      assert LaserPass(lid, eids, ents) == LaserPass(lid, front, ents) + tail;
      SpawnCountAppend(LaserPass(lid, front, ents), tail);
      if PairHits(ents, lid, eid) {
        assert tail[1..][1..][1..] == [];
        assert SpawnCount(tail[1..][1..]) == 1;
        assert SpawnCount(tail) == 1;
      }
      assert HitEnemies(lid, eids, ents)
             == HitEnemies(lid, front, ents) + (if PairHits(ents, lid, eid) then [eid] else []);
    }
  }

  /**
   * The inner loop queues the laser's despawn at least once per overlapped enemy: it
   * never checks whether the laser is already doomed.
   */
  lemma {:induction false} LaserPassDespawnCount(lid: EntityId, eids: seq<EntityId>, ents: map<EntityId, Entity>)
    ensures multiset(LaserPass(lid, eids, ents))[Despawn(lid)] >= |HitEnemies(lid, eids, ents)|
  {
    if |eids| > 0 {
      var front := eids[..|eids| - 1];
      var eid := eids[|eids| - 1];
      LaserPassDespawnCount(lid, front, ents);
      var tail := if PairHits(ents, lid, eid) then HitCommands(lid, eid, ents[eid]) else [];
      assert LaserPass(lid, eids, ents) == LaserPass(lid, front, ents) + tail;
      assert multiset(LaserPass(lid, eids, ents)) == multiset(LaserPass(lid, front, ents)) + multiset(tail);
      assert multiset(tail)[Despawn(lid)] >= if PairHits(ents, lid, eid) then 1 else 0;
    }
  }

  /** The system queues exactly one explosion marker per overlapping (laser, enemy) pair. */
  lemma {:induction false} CollisionSpawnCount(lids: seq<EntityId>, eids: seq<EntityId>, ents: map<EntityId, Entity>)
    ensures SpawnCount(CollisionCommands(lids, eids, ents)) == PairCount(lids, eids, ents)
  {
    if |lids| > 0 {
      var front := lids[..|lids| - 1];
      var lid := lids[|lids| - 1];
      CollisionSpawnCount(front, eids, ents);
      LaserPassSpawnCount(lid, eids, ents);
      var tail := if lid in ents && InLaserQuery(ents[lid]) then LaserPass(lid, eids, ents) else [];
      SpawnCountAppend(CollisionCommands(front, eids, ents), tail);
    }
  }

  /** The inner loop despawns the laser iff it hits some enemy, and despawns exactly the enemies it hits. */
  lemma {:induction false} LaserPassDespawnIff(lid: EntityId, eids: seq<EntityId>, ents: map<EntityId, Entity>, x: EntityId)
    ensures Despawn(x) in LaserPass(lid, eids, ents) <==>
            || (x == lid && exists e :: e in eids && PairHits(ents, lid, e))
            || (x in eids && PairHits(ents, lid, x))
  {
    if |eids| > 0 {
      var front := eids[..|eids| - 1];
      var eid := eids[|eids| - 1];
      LaserPassDespawnIff(lid, front, ents, x);
      assert eids == front + [eid];
      if x == lid && (exists e :: e in eids && PairHits(ents, lid, e)) {
        var e :| e in eids && PairHits(ents, lid, e);
        if e != eid {
          assert e in front;
        }
      }
    }
  }

  /**
   * Collision filter: the system despawns exactly the lasers that hit some enemy and
   * the enemies that some laser hits; no other entity is ever queued for despawn.
   */
  lemma {:induction false} CollisionDespawnIff(lids: seq<EntityId>, eids: seq<EntityId>, ents: map<EntityId, Entity>, x: EntityId)
    ensures Despawn(x) in CollisionCommands(lids, eids, ents) <==>
            || (x in lids && exists e :: e in eids && PairHits(ents, x, e))
            || (x in eids && exists l :: l in lids && PairHits(ents, l, x))
  {
    if |lids| > 0 {
      var front := lids[..|lids| - 1];
      var lid := lids[|lids| - 1];
      CollisionDespawnIff(front, eids, ents, x);
      LaserPassDespawnIff(lid, eids, ents, x);
      assert lids == front + [lid];
      if x in eids && (exists l :: l in lids && PairHits(ents, l, x)) {
        var l :| l in lids && PairHits(ents, l, x);
        if l != lid {
          assert l in front;
        } else {
          assert Despawn(x) in LaserPass(lid, eids, ents);
        }
      }
      if x in lids && (exists e :: e in eids && PairHits(ents, x, e)) {
        if x != lid {
          assert x in front;
        }
      }
    }
  }

  /** The markers the system spawns are exactly those at the translation of an enemy some laser hits. */
  lemma {:induction false} CollisionSpawnIff(lids: seq<EntityId>, eids: seq<EntityId>, ents: map<EntityId, Entity>, m: Entity)
    ensures Spawn(m) in CollisionCommands(lids, eids, ents) <==>
            exists l, e :: l in lids && e in eids && PairHits(ents, l, e) && m == Marker(ents[e].transform.value.translation)
  {
    if |lids| > 0 {
      var front := lids[..|lids| - 1];
      var lid := lids[|lids| - 1];
      CollisionSpawnIff(front, eids, ents, m);
      LaserPassSpawnIff(lid, eids, ents, m);
      assert lids == front + [lid];
      if exists l, e :: l in lids && e in eids && PairHits(ents, l, e) && m == Marker(ents[e].transform.value.translation) {
        var l, e :| l in lids && e in eids && PairHits(ents, l, e) && m == Marker(ents[e].transform.value.translation);
        if l != lid {
          assert l in front;
        }
      }
    }
  }

  /** The inner loop spawns a marker at the translation of each enemy the laser hits, and no other. */
  lemma {:induction false} LaserPassSpawnIff(lid: EntityId, eids: seq<EntityId>, ents: map<EntityId, Entity>, m: Entity)
    ensures Spawn(m) in LaserPass(lid, eids, ents) <==>
            exists e :: e in eids && PairHits(ents, lid, e) && m == Marker(ents[e].transform.value.translation)
  {
    if |eids| > 0 {
      var front := eids[..|eids| - 1];
      var eid := eids[|eids| - 1];
      LaserPassSpawnIff(lid, front, ents, m);
      assert eids == front + [eid];
      if exists e :: e in eids && PairHits(ents, lid, e) && m == Marker(ents[e].transform.value.translation) {
        var e :| e in eids && PairHits(ents, lid, e) && m == Marker(ents[e].transform.value.translation);
        if e != eid {
          assert e in front;
        }
      }
    }
  }

  /** A laser's hits all sit inside the outer loop's totals. */
  lemma {:induction false} LaserPassInCollision(lids: seq<EntityId>, eids: seq<EntityId>, ents: map<EntityId, Entity>, l: EntityId)
    requires l in lids && l in ents && InLaserQuery(ents[l])
    ensures PairCount(lids, eids, ents) >= |HitEnemies(l, eids, ents)|
    ensures multiset(CollisionCommands(lids, eids, ents))[Despawn(l)] >= multiset(LaserPass(l, eids, ents))[Despawn(l)]
  {
    var front := lids[..|lids| - 1];
    var lid := lids[|lids| - 1];
    assert lids == front + [lid];
    if l != lid {
      assert l in front;
      LaserPassInCollision(front, eids, ents, l);
    }
  }

  lemma TwoDistinctMembers(h: seq<EntityId>, a: EntityId, b: EntityId)
    requires a in h && b in h && a != b
    ensures |h| >= 2
  {
    var i :| 0 <= i < |h| && h[i] == a;
    var j :| 0 <= j < |h| && h[j] == b;
    assert i != j;
  }

  /**
   * No liveness check: a laser that overlaps two enemies in one pass yields two markers
   * and two despawns of itself, and the flush removes it (and both enemies) without error.
   */
  lemma DoubleHitRemovesLaserOnce(s: Store, l: EntityId, e1: EntityId, e2: EntityId)
    requires Valid(s)
    requires e1 in s.order && e2 in s.order && e1 != e2
    requires PairHits(s.entities, l, e1) && PairHits(s.entities, l, e2)
    ensures SpawnCount(CollisionCommands(s.order, s.order, s.entities)) >= 2
    ensures multiset(CollisionCommands(s.order, s.order, s.entities))[Despawn(l)] >= 2
    ensures var after := ApplyAll(s, CollisionCommands(s.order, s.order, s.entities));
            l !in after.entities && e1 !in after.entities && e2 !in after.entities
  {
    var cmds := CollisionCommands(s.order, s.order, s.entities);
    TwoDistinctMembers(HitEnemies(l, s.order, s.entities), e1, e2);
    LaserPassDespawnCount(l, s.order, s.entities);
    LaserPassInCollision(s.order, s.order, s.entities, l);
    CollisionSpawnCount(s.order, s.order, s.entities);
    CollisionDespawnIff(s.order, s.order, s.entities, l);
    CollisionDespawnIff(s.order, s.order, s.entities, e1);
    CollisionDespawnIff(s.order, s.order, s.entities, e2);
    DeferredVisibility(s, cmds, l);
    DeferredVisibility(s, cmds, e1);
    DeferredVisibility(s, cmds, e2);
  }

  /** The collision system followed by a flush of what it queued. */
  function CollideAndFlush(s: Store): (r: Store)
    ensures Valid(s) ==> Valid(r)
  {
    ApplyAll(s, CollisionCommands(s.order, s.order, s.entities))
  }

  /**
   * After the collision system and a flush, an entity of the store is still live
   * exactly when it neither is a laser that hit an enemy nor an enemy that a laser hit,
   * a survivor is unchanged, and one marker has been spawned per overlapping pair.
   */
  lemma CollideAndFlushOutcome(s: Store, id: EntityId)
    requires Valid(s) && id in s.entities
    ensures CollideAndFlush(s).nextId == s.nextId + PairCount(s.order, s.order, s.entities)
    ensures id in CollideAndFlush(s).entities <==>
            && !(exists e :: e in s.order && PairHits(s.entities, id, e))
            && !(exists l :: l in s.order && PairHits(s.entities, l, id))
    ensures id in CollideAndFlush(s).entities ==> CollideAndFlush(s).entities[id] == s.entities[id]
  {
    CollisionSpawnCount(s.order, s.order, s.entities);
    CollisionDespawnIff(s.order, s.order, s.entities, id);
    ApplyAllSurvivors(s, CollisionCommands(s.order, s.order, s.entities), id);
  }
}
