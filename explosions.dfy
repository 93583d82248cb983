/**
 * The marker system: every `ExplosionToSpawn` marker is turned into an explosion
 * entity at the marker's translation, and the marker itself is queued for despawn.
 */
module Explosions {
  import opened Geometry
  import opened Components
  import opened CommandBuffer

  /** `ExplosionTimer::default()`: nothing elapsed yet, not finished, with the configured period and mode. */
  function FreshTimer(setting: TimerSetting): Timer {
    Timer(setting.period, setting.mode, 0, false)
  }

  /**
   * The explosion spawned for a marker at `t`: a sprite-sheet entity at `t` with the
   * default scale, frame 0 of the atlas, the `Explosion` tag and a fresh timer.
   */
  function NewExplosion(t: Vec3, atlas: AtlasHandle, setting: TimerSetting): (r: Entity)
    ensures InAnimationQuery(r) && r.sprite == Some(0) && r.explosionTimer == Some(FreshTimer(setting))
    ensures r.transform.Some? && r.transform.value.translation == t
    ensures !InMarkerQuery(r) && !InMovableQuery(r) && !InLaserQuery(r) && !InEnemyQuery(r)
  {
    Entity(Some(Transform(t, Vec3(1.0, 1.0, 1.0))), None, None, None, false, false, false,
           None, true, Some(FreshTimer(setting)), Some(0), Some(atlas))
  }

  /** The commands the marker system queues while visiting `ids` in order. */
  function MarkerCommands(ids: seq<EntityId>, ents: map<EntityId, Entity>, atlas: AtlasHandle, setting: TimerSetting): seq<Command> {
    if |ids| == 0 then []
    else
      var id := ids[|ids| - 1];
      MarkerCommands(ids[..|ids| - 1], ents, atlas, setting)
        + (if id in ents && InMarkerQuery(ents[id])
           then [Spawn(NewExplosion(ents[id].explosionToSpawn.value, atlas, setting)), Despawn(id)]
           else [])
  }

  /** The markers among `ids`, in order. */
  function Markers(ids: seq<EntityId>, ents: map<EntityId, Entity>): (r: seq<EntityId>)
    ensures forall x :: x in r <==> x in ids && x in ents && InMarkerQuery(ents[x])
  {
    if |ids| == 0 then []
    else
      var id := ids[|ids| - 1];
      Markers(ids[..|ids| - 1], ents) + (if id in ents && InMarkerQuery(ents[id]) then [id] else [])
  }

  /** The translation a marker carries. */
  function MarkerTranslation(ents: map<EntityId, Entity>, m: EntityId): Vec3
    requires m in ents && InMarkerQuery(ents[m])
  {
    ents[m].explosionToSpawn.value
  }

  /**
   * The system queues exactly two commands per marker, in the markers' order: the
   * spawn of an explosion at the marker's translation, then the marker's despawn.
   */
  lemma {:induction false} MarkerCommandsShape(ids: seq<EntityId>, ents: map<EntityId, Entity>, atlas: AtlasHandle, setting: TimerSetting)
    ensures |MarkerCommands(ids, ents, atlas, setting)| == 2 * |Markers(ids, ents)|
    ensures forall k :: 0 <= k < |Markers(ids, ents)| ==>
              var m := Markers(ids, ents)[k];
              && m in ents && InMarkerQuery(ents[m])
              && MarkerCommands(ids, ents, atlas, setting)[2 * k] == Spawn(NewExplosion(MarkerTranslation(ents, m), atlas, setting))
              && MarkerCommands(ids, ents, atlas, setting)[2 * k + 1] == Despawn(m)
  {
    if |ids| > 0 {
      MarkerCommandsShape(ids[..|ids| - 1], ents, atlas, setting);
    }
  }

  /** The system despawns exactly the markers. */
  lemma {:induction false} MarkerDespawnIff(ids: seq<EntityId>, ents: map<EntityId, Entity>, atlas: AtlasHandle, setting: TimerSetting, x: EntityId)
    ensures Despawn(x) in MarkerCommands(ids, ents, atlas, setting) <==> x in ids && x in ents && InMarkerQuery(ents[x])
  {
    if |ids| > 0 {
      var front := ids[..|ids| - 1];
      MarkerDespawnIff(front, ents, atlas, setting, x);
      assert ids == front + [ids[|ids| - 1]];
    }
  }

  /** The entities the system spawns are one explosion per marker, in the markers' order. */
  lemma {:induction false} MarkerSpawned(ids: seq<EntityId>, ents: map<EntityId, Entity>, atlas: AtlasHandle, setting: TimerSetting)
    ensures |Spawned(MarkerCommands(ids, ents, atlas, setting))| == |Markers(ids, ents)|
    ensures forall k :: 0 <= k < |Markers(ids, ents)| ==>
              var m := Markers(ids, ents)[k];
              && m in ents && InMarkerQuery(ents[m])
              && Spawned(MarkerCommands(ids, ents, atlas, setting))[k] == NewExplosion(MarkerTranslation(ents, m), atlas, setting)
  {
    if |ids| > 0 {
      var front := ids[..|ids| - 1];
      var id := ids[|ids| - 1];
      MarkerSpawned(front, ents, atlas, setting);
      var tail := if id in ents && InMarkerQuery(ents[id])
                  then [Spawn(NewExplosion(ents[id].explosionToSpawn.value, atlas, setting)), Despawn(id)]
                  else [];
      SpawnCountAppend(MarkerCommands(front, ents, atlas, setting), tail);
      if id in ents && InMarkerQuery(ents[id]) {
        assert tail[1..][1..] == [];
        assert Spawned(tail) == [NewExplosion(ents[id].explosionToSpawn.value, atlas, setting)];
      }
    }
  }

  /** The marker system followed by a flush of what it queued. */
  function MarkersAndFlush(s: Store, atlas: AtlasHandle, setting: TimerSetting): (r: Store)
    ensures Valid(s) ==> Valid(r)
  {
    ApplyAll(s, MarkerCommands(s.order, s.entities, atlas, setting))
  }

  /**
   * After the marker system and a flush, the k-th marker has become a live explosion
   * with id `nextId + k` at the marker's translation.
   */
  lemma MarkersBecomeExplosions(s: Store, atlas: AtlasHandle, setting: TimerSetting, k: nat)
    requires Valid(s) && k < |Markers(s.order, s.entities)|
    ensures MarkersAndFlush(s, atlas, setting).nextId == s.nextId + |Markers(s.order, s.entities)|
    ensures var m := Markers(s.order, s.entities)[k];
            && m in s.entities && InMarkerQuery(s.entities[m])
            && s.nextId + k in MarkersAndFlush(s, atlas, setting).entities
            && MarkersAndFlush(s, atlas, setting).entities[s.nextId + k]
               == NewExplosion(MarkerTranslation(s.entities, m), atlas, setting)
  {
    var cmds := MarkerCommands(s.order, s.entities, atlas, setting);
    MarkerSpawned(s.order, s.entities, atlas, setting);
    MarkerDespawnIff(s.order, s.entities, atlas, setting, s.nextId + k);
    ApplyAllSpawned(s, cmds, k);
  }

  /**
   * After the marker system and a flush, no marker is left, and every entity that was
   * not a marker is live with its components unchanged.
   */
  lemma MarkersConsumed(s: Store, atlas: AtlasHandle, setting: TimerSetting, id: EntityId)
    requires Valid(s)
    ensures id in MarkersAndFlush(s, atlas, setting).entities ==>
              !InMarkerQuery(MarkersAndFlush(s, atlas, setting).entities[id])
    ensures id in s.entities && !InMarkerQuery(s.entities[id]) ==>
              id in MarkersAndFlush(s, atlas, setting).entities
              && MarkersAndFlush(s, atlas, setting).entities[id] == s.entities[id]
  {
    var cmds := MarkerCommands(s.order, s.entities, atlas, setting);
    var after := ApplyAll(s, cmds);
    if id < s.nextId {
      ApplyAllSurvivors(s, cmds, id);
      MarkerDespawnIff(s.order, s.entities, atlas, setting, id);
    } else if id in after.entities {
      MarkerSpawned(s.order, s.entities, atlas, setting);
      LiveIdsAreIssued(s, cmds, id);
      MarkersBecomeExplosions(s, atlas, setting, id - s.nextId);
    }
  }
}
