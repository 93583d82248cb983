/**
 * The explosion animation system: every explosion ticks its timer by the frame's
 * elapsed time; on a tick where the timer finishes, the sprite advances one frame, and
 * once the frame index has reached the sheet's length the explosion is queued for despawn.
 */
module Animation {
  import opened Components
  import opened CommandBuffer

  /**
   * One tick of a timer. A one-shot timer that has finished ignores the tick and stays
   * finished. Otherwise the elapsed time accumulates, and when it reaches the period the
   * timer finishes: a repeating timer wraps its elapsed time around modulo the period, a
   * one-shot timer stops at the period.
   */
  function TickTimer(t: Timer, delta: nat): (r: Timer)
    ensures r.period == t.period && r.mode == t.mode
    ensures t.mode == Once && t.finished ==> r == t
    ensures !(t.mode == Once && t.finished) ==> (r.finished <==> t.elapsed + delta >= t.period)
    ensures t.mode == Repeating ==> r.elapsed == (t.elapsed + delta) % t.period
    ensures r.elapsed <= t.period || r.elapsed == t.elapsed
  {
    if t.mode == Once && t.finished then t
    else
      var e := t.elapsed + delta;
      if e >= t.period then Timer(t.period, t.mode, if t.mode == Repeating then e % t.period else t.period, true)
      else Timer(t.period, t.mode, e, false)
  }

  /** The entity after one tick of animation. Only the timer and the frame index of an explosion change. */
  function Animated(e: Entity, delta: nat): (r: Entity)
    ensures r.(explosionTimer := e.explosionTimer, sprite := e.sprite) == e
    ensures !InAnimationQuery(e) ==> r == e
    ensures InAnimationQuery(r) == InAnimationQuery(e)
    ensures InAnimationQuery(e) ==>
              && r.explosionTimer.value == TickTimer(e.explosionTimer.value, delta)
              && r.sprite.value == e.sprite.value + (if r.explosionTimer.value.finished then 1 else 0)
  {
    if InAnimationQuery(e) then
      var t := TickTimer(e.explosionTimer.value, delta);
      e.(explosionTimer := Some(t), sprite := if t.finished then Some(e.sprite.value + 1) else e.sprite)
    else e
  }

  /** The animated entity is the one the animation system queues for despawn. */
  predicate DespawnedByAnimation(e: Entity) {
    InAnimationQuery(e) && e.explosionTimer.value.finished && e.sprite.value >= ExplosionLen
  }

  /** The store after every explosion has been animated; no entity appears or disappears. */
  function AnimateStore(s: Store, delta: nat): (r: Store)
    ensures r.order == s.order && r.nextId == s.nextId && r.entities.Keys == s.entities.Keys
    ensures Valid(s) ==> Valid(r)
  {
    s.(entities := map id | id in s.entities :: Animated(s.entities[id], delta))
  }

  /** The despawns the animation system queues while visiting `ids` in order, judged on the animated entities. */
  function AnimationDespawns(ids: seq<EntityId>, animated: map<EntityId, Entity>): (r: seq<Command>)
    ensures |r| <= |ids|
    ensures forall c :: c in r ==> c.Despawn?
  {
    if |ids| == 0 then []
    else
      var id := ids[|ids| - 1];
      AnimationDespawns(ids[..|ids| - 1], animated)
        + (if id in animated && DespawnedByAnimation(animated[id]) then [Despawn(id)] else [])
  }

  /** Visiting one more entity queues at most its own despawn. */
  lemma AnimationDespawnsStep(ids: seq<EntityId>, animated: map<EntityId, Entity>, i: nat)
    requires i < |ids|
    ensures AnimationDespawns(ids[..i + 1], animated) == AnimationDespawns(ids[..i], animated)
              + (if ids[i] in animated && DespawnedByAnimation(animated[ids[i]]) then [Despawn(ids[i])] else [])
  {
    assert ids[..i + 1][..i] == ids[..i];
  }

  /** The animation system followed by a flush of what it queued. */
  function AnimateAndFlush(s: Store, delta: nat): (r: Store)
    ensures Valid(s) ==> Valid(r)
    ensures r.nextId == s.nextId
  {
    var a := AnimateStore(s, delta);
    var cmds := AnimationDespawns(s.order, a.entities);
    DespawnsSpawnNothing(cmds);
    ApplyAll(a, cmds)
  }

  /** An entity is queued exactly when it is visited and, after animating, is an explosion past its last frame on a finishing tick. */
  lemma {:induction false} AnimationDespawnsIff(ids: seq<EntityId>, animated: map<EntityId, Entity>, id: EntityId)
    ensures Despawn(id) in AnimationDespawns(ids, animated) <==>
            id in ids && id in animated && DespawnedByAnimation(animated[id])
  {
    if |ids| > 0 {
      var front := ids[..|ids| - 1];
      AnimationDespawnsIff(front, animated, id);
      assert ids == front + [ids[|ids| - 1]];
    }
  }

  /**
   * After the animation system and a flush, an entity of the store is still live exactly
   * when its animated self is not queued, and a survivor carries its animated components.
   */
  lemma AnimateAndFlushOutcome(s: Store, delta: nat, id: EntityId)
    requires Valid(s) && id in s.entities
    ensures id in AnimateAndFlush(s, delta).entities <==> !DespawnedByAnimation(Animated(s.entities[id], delta))
    ensures id in AnimateAndFlush(s, delta).entities ==>
              AnimateAndFlush(s, delta).entities[id] == Animated(s.entities[id], delta)
  {
    var a := AnimateStore(s, delta);
    AnimationDespawnsIff(s.order, a.entities, id);
    ApplyAllSurvivors(a, AnimationDespawns(s.order, a.entities), id);
  }

  /** A timer ticked through `deltas`, first to last. */
  function TimerAfter(t: Timer, deltas: seq<nat>): Timer {
    if |deltas| == 0 then t else TickTimer(TimerAfter(t, deltas[..|deltas| - 1]), deltas[|deltas| - 1])
  }

  /** The number of ticks among `deltas` on which the timer finishes. */
  function Finishes(t: Timer, deltas: seq<nat>): nat {
    if |deltas| == 0 then 0
    else
      var front := deltas[..|deltas| - 1];
      Finishes(t, front) + (if TickTimer(TimerAfter(t, front), deltas[|deltas| - 1]).finished then 1 else 0)
  }

  /** An entity animated through `deltas`, first to last, ignoring any despawn. */
  function AnimatedAfter(e: Entity, deltas: seq<nat>): Entity {
    if |deltas| == 0 then e else Animated(AnimatedAfter(e, deltas[..|deltas| - 1]), deltas[|deltas| - 1])
  }

  /** The frame index of an explosion counts the ticks on which its timer finished, and nothing else. */
  lemma {:induction false} FrameCountsFinishes(e: Entity, deltas: seq<nat>)
    requires InAnimationQuery(e)
    ensures InAnimationQuery(AnimatedAfter(e, deltas))
    ensures AnimatedAfter(e, deltas).explosionTimer.value == TimerAfter(e.explosionTimer.value, deltas)
    ensures AnimatedAfter(e, deltas).sprite.value == e.sprite.value + Finishes(e.explosionTimer.value, deltas)
  {
    if |deltas| > 0 {
      FrameCountsFinishes(e, deltas[..|deltas| - 1]);
    }
  }

  /**
   * An explosion that starts at frame 0 is queued for despawn on a tick exactly when
   * that tick finishes its timer and the finishing ticks so far number at least 16.
   * While fewer than 16 ticks have finished it is never queued; on the tick that is the
   * 16th to finish it is. Before any tick, nothing has finished and it is not due.
   */
  lemma DespawnIffSixteenFinishes(e: Entity, deltas: seq<nat>)
    requires InAnimationQuery(e) && e.sprite == Some(0)
    ensures DespawnedByAnimation(AnimatedAfter(e, deltas)) <==>
            && TimerAfter(e.explosionTimer.value, deltas).finished
            && Finishes(e.explosionTimer.value, deltas) >= ExplosionLen
  {
    FrameCountsFinishes(e, deltas);
  }

  /**
   * Every tick of length exactly one period finishes. A repeating timer is left with
   * nothing elapsed; a one-shot timer finishes on the first tick and stays finished.
   */
  lemma {:induction false} WholePeriodTicks(t: Timer, deltas: seq<nat>)
    requires t.elapsed == 0
    requires forall i :: 0 <= i < |deltas| ==> deltas[i] == t.period
    ensures TimerAfter(t, deltas).period == t.period && TimerAfter(t, deltas).mode == t.mode
    ensures t.mode == Repeating ==> TimerAfter(t, deltas).elapsed == 0
    ensures Finishes(t, deltas) == |deltas|
    ensures |deltas| > 0 ==> TimerAfter(t, deltas).finished
  {
    if |deltas| > 0 {
      var front := deltas[..|deltas| - 1];
      WholePeriodTicks(t, front);
      var prev := TimerAfter(t, front);
      if t.mode == Repeating {
        assert TimerAfter(t, deltas) == Timer(t.period, t.mode, t.period % t.period, true);
      } else if |front| == 0 {
        assert prev == t;
      }
    }
  }

  /** A one-shot timer that has finished stays as it is, and counts as finishing on every later tick. */
  lemma {:induction false} FinishedOnceStaysFinished(t: Timer, deltas: seq<nat>)
    requires t.mode == Once && t.finished
    ensures TimerAfter(t, deltas) == t
    ensures Finishes(t, deltas) == |deltas|
  {
    if |deltas| > 0 {
      FinishedOnceStaysFinished(t, deltas[..|deltas| - 1]);
    }
  }

  /**
   * An explosion whose one-shot timer has finished advances its frame index on every
   * tick, whatever the tick's length.
   */
  lemma FinishedOnceAdvancesEveryTick(e: Entity, deltas: seq<nat>)
    requires InAnimationQuery(e) && e.explosionTimer.value.mode == Once && e.explosionTimer.value.finished
    ensures InAnimationQuery(AnimatedAfter(e, deltas))
    ensures AnimatedAfter(e, deltas).sprite.value == e.sprite.value + |deltas|
  {
    FrameCountsFinishes(e, deltas);
    FinishedOnceStaysFinished(e.explosionTimer.value, deltas);
  }

  /**
   * A fresh explosion whose every tick lasts exactly one timer period is queued for
   * despawn on its 16th tick and on no earlier one, in either timer mode.
   */
  lemma QueuedOnSixteenthWholePeriodTick(e: Entity, deltas: seq<nat>)
    requires InAnimationQuery(e) && e.sprite == Some(0) && e.explosionTimer.value.elapsed == 0
    requires forall i :: 0 <= i < |deltas| ==> deltas[i] == e.explosionTimer.value.period
    requires |deltas| > 0
    ensures DespawnedByAnimation(AnimatedAfter(e, deltas)) <==> |deltas| >= ExplosionLen
  {
    WholePeriodTicks(e.explosionTimer.value, deltas);
    DespawnIffSixteenFinishes(e, deltas);
  }
}
