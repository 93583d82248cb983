/**
 * The entity store and the deferred command buffer. Systems never change which
 * entities exist; they queue `Spawn` and `Despawn` commands, and a flush applies
 * the queue in order. Despawning an id that is no longer in the store does nothing.
 */
module CommandBuffer {
  import opened Components

  datatype Command = Spawn(components: Entity) | Despawn(id: EntityId)

  /**
   * The live entities, the order in which queries visit them (spawn order), and the
   * next id a spawn will receive.
   */
  datatype Store = Store(entities: map<EntityId, Entity>, order: seq<EntityId>, nextId: EntityId)

  predicate Distinct(ids: seq<EntityId>) {
    forall i, j :: 0 <= i < j < |ids| ==> ids[i] != ids[j]
  }

  /** Every live entity is visited exactly once, and no live id has been handed out yet. */
  ghost predicate Valid(s: Store) {
    && Distinct(s.order)
    && (forall id :: id in s.entities <==> id in s.order)
    && (forall id :: id in s.order ==> id < s.nextId)
  }

  /** `ids` with `id` taken out, the others in their order. */
  function Without(ids: seq<EntityId>, id: EntityId): (r: seq<EntityId>)
    ensures forall x :: x in r <==> x in ids && x != id
    ensures id !in ids ==> r == ids
    ensures Distinct(ids) ==> Distinct(r)
  {
    if |ids| == 0 then []
    else if ids[0] == id then Without(ids[1..], id)
    else
      var rest := Without(ids[1..], id);
      assert Distinct(ids) ==> ids[0] !in rest;
      [ids[0]] + rest
  }

  /**
   * Taking an id out of a concatenation takes it out of each part: the ids that remain
   * keep their relative order.
   */
  lemma {:induction false} WithoutAppend(a: seq<EntityId>, b: seq<EntityId>, id: EntityId)
    ensures Without(a + b, id) == Without(a, id) + Without(b, id)
    decreases |a|
  {
    if |a| > 0 {
      assert (a + b)[0] == a[0];
      assert (a + b)[1..] == a[1..] + b;
      WithoutAppend(a[1..], b, id);
    } else {
      assert a + b == b;
    }
  }

  /** The effect of one command on the store. */
  function Apply(s: Store, c: Command): (r: Store)
    ensures Valid(s) ==> Valid(r)
  {
    match c
    case Spawn(e) =>
      assert Valid(s) ==> s.nextId !in s.order;
      Store(s.entities[s.nextId := e], s.order + [s.nextId], s.nextId + 1)
    case Despawn(id) => Store(s.entities - {id}, Without(s.order, id), s.nextId)
  }

  /** The number of spawn commands in a queue. */
  function SpawnCount(cmds: seq<Command>): nat {
    if |cmds| == 0 then 0 else (if cmds[0].Spawn? then 1 else 0) + SpawnCount(cmds[1..])
  }

  /** The entities a queue spawns, in queue order. */
  function Spawned(cmds: seq<Command>): (r: seq<Entity>)
    ensures |r| == SpawnCount(cmds)
  {
    if |cmds| == 0 then []
    else if cmds[0].Spawn? then [cmds[0].components] + Spawned(cmds[1..])
    else Spawned(cmds[1..])
  }

  /** Flushing a queue: its commands applied one after another, first to last. */
  function ApplyAll(s: Store, cmds: seq<Command>): (r: Store)
    ensures Valid(s) ==> Valid(r)
    ensures r.nextId == s.nextId + SpawnCount(cmds)
    decreases |cmds|
  {
    if |cmds| == 0 then s else ApplyAll(Apply(s, cmds[0]), cmds[1..])
  }

  /** Flushing the first i + 1 commands of a queue is flushing the first i, then applying the next. */
  lemma ApplyAllPrefix(s: Store, cmds: seq<Command>, i: nat)
    requires i < |cmds|
    ensures ApplyAll(s, cmds[..i + 1]) == Apply(ApplyAll(s, cmds[..i]), cmds[i])
  {
    assert cmds[..i + 1] == cmds[..i] + [cmds[i]];
    ApplyAllAppend(s, cmds[..i], [cmds[i]]);
  }

  /** Spawn counts add up over concatenated queues. */
  lemma {:induction false} SpawnCountAppend(a: seq<Command>, b: seq<Command>)
    ensures SpawnCount(a + b) == SpawnCount(a) + SpawnCount(b)
    ensures Spawned(a + b) == Spawned(a) + Spawned(b)
    decreases |a|
  {
    if |a| > 0 {
      assert (a + b)[0] == a[0];
      assert (a + b)[1..] == a[1..] + b;
      SpawnCountAppend(a[1..], b);
    } else {
      assert a + b == b;
    }
  }

  /** A queue of despawns only spawns nothing. */
  lemma {:induction false} DespawnsSpawnNothing(cmds: seq<Command>)
    requires forall c :: c in cmds ==> c.Despawn?
    ensures SpawnCount(cmds) == 0
    decreases |cmds|
  {
    if |cmds| > 0 {
      assert cmds[0] in cmds;
      DespawnsSpawnNothing(cmds[1..]);
    }
  }

  /** Despawning an entity that is not in the store leaves the store as it was. */
  lemma DespawnAbsentIsNoOp(s: Store, id: EntityId)
    requires Valid(s) && id !in s.entities
    ensures Apply(s, Despawn(id)) == s
  {
    assert s.entities - {id} == s.entities;
  }

  /** A second despawn of the same entity has no further effect. */
  lemma DespawnTwiceIsDespawnOnce(s: Store, id: EntityId)
    requires Valid(s)
    ensures Apply(Apply(s, Despawn(id)), Despawn(id)) == Apply(s, Despawn(id))
  {
    DespawnAbsentIsNoOp(Apply(s, Despawn(id)), id);
  }

  /** Flushing a concatenated queue is flushing its two parts in turn. */
  lemma {:induction false} ApplyAllAppend(s: Store, a: seq<Command>, b: seq<Command>)
    ensures ApplyAll(s, a + b) == ApplyAll(ApplyAll(s, a), b)
    decreases |a|
  {
    if |a| > 0 {
      assert (a + b)[0] == a[0];
      assert (a + b)[1..] == a[1..] + b;
      ApplyAllAppend(Apply(s, a[0]), a[1..], b);
    } else {
      assert a + b == b;
    }
  }

  /**
   * An entity that existed before the flush survives it exactly when the queue holds
   * no despawn for it, however many despawns for it the queue holds otherwise, and a
   * survivor keeps its components. An id handed out before the flush that was not
   * live stays absent.
   */
  lemma {:induction false} ApplyAllSurvivors(s: Store, cmds: seq<Command>, id: EntityId)
    requires id < s.nextId
    ensures id in ApplyAll(s, cmds).entities <==> id in s.entities && Despawn(id) !in cmds
    ensures id in ApplyAll(s, cmds).entities ==> ApplyAll(s, cmds).entities[id] == s.entities[id]
    decreases |cmds|
  {
    if |cmds| > 0 {
      var next := Apply(s, cmds[0]);
      ApplyAllSurvivors(next, cmds[1..], id);
      assert cmds == [cmds[0]] + cmds[1..];
      assert id in next.entities <==> id in s.entities && cmds[0] != Despawn(id);
      assert id in next.entities ==> next.entities[id] == s.entities[id];
    }
  }

  /**
   * The k-th spawn of a queue receives id `nextId + k`; unless the queue also despawns
   * that id, it is live after the flush with the spawned components.
   */
  lemma {:induction false} ApplyAllSpawned(s: Store, cmds: seq<Command>, k: nat)
    requires k < SpawnCount(cmds)
    requires Despawn(s.nextId + k) !in cmds
    ensures s.nextId + k in ApplyAll(s, cmds).entities
    ensures ApplyAll(s, cmds).entities[s.nextId + k] == Spawned(cmds)[k]
    decreases |cmds|
  {
    var s' := Apply(s, cmds[0]);
    assert cmds == [cmds[0]] + cmds[1..];
    if cmds[0].Spawn? && k == 0 {
      if |cmds[1..]| > 0 {
        ApplyAllSurvivors(s', cmds[1..], s.nextId);
      }
    } else if cmds[0].Spawn? {
      ApplyAllSpawned(s', cmds[1..], k - 1);
    } else {
      ApplyAllSpawned(s', cmds[1..], k);
    }
  }

  /** Every id live after a flush of a valid store was handed out by the store or by the flush. */
  lemma LiveIdsAreIssued(s: Store, cmds: seq<Command>, id: EntityId)
    requires Valid(s)
    ensures id in ApplyAll(s, cmds).entities ==> id < s.nextId + SpawnCount(cmds)
  {
  }

  /**
   * Deferred visibility: a queued despawn does not touch the store, so the entity stays
   * in the query order the rest of its system visits; only the flush removes it. The
   * systems' own frames say the same from the other side: the collision and marker
   * systems change nothing, and the movement and animation systems leave the live ids
   * and their order as they were, so each system returns its queue over the store it
   * started from.
   */
  lemma DeferredVisibility(s: Store, cmds: seq<Command>, id: EntityId)
    requires Valid(s) && id in s.entities && Despawn(id) in cmds
    ensures id in s.order
    ensures id !in ApplyAll(s, cmds).entities
  {
    ApplyAllSurvivors(s, cmds, id);
  }

  /**
   * The entities after a system that rewrites each visited entity in place has visited
   * `ids` in order, replacing each by its counterpart in `target`.
   */
  function UpdatedAt(ents: map<EntityId, Entity>, ids: seq<EntityId>, target: map<EntityId, Entity>): (r: map<EntityId, Entity>)
    ensures r.Keys == ents.Keys
  {
    if |ids| == 0 then ents
    else
      var prev := UpdatedAt(ents, ids[..|ids| - 1], target);
      var id := ids[|ids| - 1];
      if id in prev && id in target then prev[id := target[id]] else prev
  }

  /** Visiting distinct ids rewrites each visited entity exactly once and leaves the others as they were. */
  lemma {:induction false} UpdatedAtLookup(ents: map<EntityId, Entity>, ids: seq<EntityId>, target: map<EntityId, Entity>, id: EntityId)
    requires Distinct(ids) && id in ents && id in target
    ensures UpdatedAt(ents, ids, target)[id] == if id in ids then target[id] else ents[id]
  {
    if |ids| > 0 {
      var front := ids[..|ids| - 1];
      assert ids == front + [ids[|ids| - 1]];
      UpdatedAtLookup(ents, front, target, id);
    }
  }

  /**
   * The i-th step of a visit in query order: the entity it reaches is live and still
   * untouched, and the step rewrites that entity alone.
   */
  lemma VisitStep(s: Store, target: map<EntityId, Entity>, i: nat)
    requires Valid(s) && target.Keys == s.entities.Keys && i < |s.order|
    ensures s.order[i] in s.entities
    ensures UpdatedAt(s.entities, s.order[..i], target)[s.order[i]] == s.entities[s.order[i]]
    ensures UpdatedAt(s.entities, s.order[..i + 1], target)
            == UpdatedAt(s.entities, s.order[..i], target)[s.order[i] := target[s.order[i]]]
  {
    var id := s.order[i];
    assert s.order[..i + 1][..i] == s.order[..i];
    assert id !in s.order[..i];
    UpdatedAtLookup(s.entities, s.order[..i], target, id);
  }

  /** Visiting every live entity of the store once, in query order, rewrites the whole store. */
  lemma UpdatedAtAll(s: Store, target: map<EntityId, Entity>)
    requires Valid(s) && target.Keys == s.entities.Keys
    ensures UpdatedAt(s.entities, s.order, target) == target
  {
    forall id | id in s.entities
      ensures UpdatedAt(s.entities, s.order, target)[id] == target[id]
    {
      UpdatedAtLookup(s.entities, s.order, target, id);
    }
  }
}
