/**
 * The Movement behaviour of one simulated entity: random wandering,
 * seeking the nearest entity of a tag, attaching to a touched entity and
 * detaching again. The fields are those of the component, together with the
 * parts of its game object (tag) and transform (position, scale, parent)
 * that the behaviour reads and writes.
 */
module MovementComponent {
  import opened Wrappers
  import opened Geometry
  import opened Engine
  import opened Nearest
  import opened Attachment
  import opened Timer
  import opened Wander

  /** The four unit draws one RandomMovement call may consume: Random.value and three Random.Range draws. */
  datatype Draws = Draws(action: real, delay: real, x: real, y: real)

  predicate ValidDraws(d: Draws)
  {
    0.0 <= d.action <= 1.0 && 0.0 <= d.delay <= 1.0 && 0.0 <= d.x <= 1.0 && 0.0 <= d.y <= 1.0
  }

  /** The running minimum of FindClosestOfList, which starts at Mathf.Infinity. */
  datatype Bound = Finite(value: real) | Infinity

  predicate Below(d: real, b: Bound)
  {
    b.Infinity? || d < b.value
  }

  /** How long MoveToClosestEntity waits between searches (0.2f). */
  const UpdateClosestInterval := 0.2

  class Movement {
    var moveSpeed: real
    var self: Option<EntityId>

    // RandomMovement
    var delayTimer: real
    var randomDelay: real
    var noiseAction: real
    var noisePos: Vec

    // Attachment to a touched entity
    var touchingOther: bool
    var touchingEntity: Option<FrameId>

    // Cached result of the nearest-entity search
    var updateClosestTimer: real
    var closestEntity: Option<FrameId>

    // The owning game object's tag and its transform
    var tag: string
    var position: Vec
    var localScale: Vec
    var parent: Option<FrameId>

    ghost function State(): Attachment
      reads this
    {
      Attachment(touchingOther, touchingEntity, parent)
    }

    ghost predicate Valid()
      reads this
    {
      Consistent(State())
    }

    /** A freshly added component: fields at their defaults, moveSpeed as set on the object, not parented. */
    constructor (tag: string, position: Vec, localScale: Vec, moveSpeed: real)
      ensures Valid() && State() == Detached
      ensures this.tag == tag && this.position == position && this.localScale == localScale
      ensures this.moveSpeed == moveSpeed && self == None
      ensures delayTimer == 0.0 && randomDelay == 0.0 && noiseAction == 0.0 && noisePos == Vec(0.0, 0.0)
      ensures updateClosestTimer == 0.0 && closestEntity == None
    {
      this.tag, this.position, this.localScale, this.moveSpeed := tag, position, localScale, moveSpeed;
      self := None;
      delayTimer, randomDelay, noiseAction, noisePos := 0.0, 0.0, 0.0, Vec(0.0, 0.0);
      touchingOther, touchingEntity, parent := false, None, None;
      updateClosestTimer, closestEntity := 0.0, None;
    }

    /**
     * Initialise: sets the search interval, clears the cached search result
     * and records the owner. The speed argument is taken only when the
     * current moveSpeed is non-zero, so a component whose speed is zero
     * keeps speed zero.
     */
    method Initialise(temp: EntityId, moveSpeedTemp: real)
      modifies this`updateClosestTimer, this`closestEntity, this`self, this`moveSpeed
      ensures updateClosestTimer == UpdateClosestInterval && closestEntity == None && self == Some(temp)
      ensures old(moveSpeed) != 0.0 ==> moveSpeed == moveSpeedTemp
      ensures old(moveSpeed) == 0.0 ==> moveSpeed == 0.0
    {
      updateClosestTimer := UpdateClosestInterval;
      closestEntity := None;
      self := Some(temp);
      if moveSpeed != 0.0 {
        moveSpeed := moveSpeedTemp;
      }
    }

    /**
     * One frame of wandering. When the shared timer runs past randomDelay a
     * new cycle is drawn (decision, duration, target) and the entity does
     * not move; otherwise it walks towards the target if the cycle's
     * decision was to move.
     */
    method RandomMovement(deltaTime: real, draws: Draws, gameSpeed: real, w: World)
      requires ValidDraws(draws)
      modifies this`delayTimer, this`noiseAction, this`randomDelay, this`noisePos, this`position
      ensures var tick := Advance(old(delayTimer), deltaTime * gameSpeed, old(randomDelay));
        && delayTimer == tick.timer
        && (tick.fired ==>
              && noiseAction == draws.action
              && randomDelay == NextDelay(draws.action, draws.delay)
              && noisePos == NextTarget(old(position), localScale, moveSpeed, draws.x, draws.y)
              && position == old(position))
        && (!tick.fired ==>
              && noiseAction == old(noiseAction) && randomDelay == old(randomDelay) && noisePos == old(noisePos)
              && position == if noiseAction >= MoveThreshold
                             then Approach(old(position), noisePos, w.distance(old(position), noisePos),
                                           localScale.x, moveSpeed, gameSpeed)
                             else old(position))
    {
      delayTimer := delayTimer + deltaTime * gameSpeed;
      if delayTimer > randomDelay {
        delayTimer := 0.0;
        noiseAction := draws.action;
        randomDelay := NextDelay(noiseAction, draws.delay);
        noisePos := NextTarget(position, localScale, moveSpeed, draws.x, draws.y);
      } else if noiseAction >= MoveThreshold {
        MoveToPosition(noisePos, gameSpeed, w);
      }
    }

    /**
     * One frame of seeking: the shared timer decides whether the cached
     * nearest entity is searched for again, and the entity then moves
     * towards (or binds to) whatever is cached. `thrown` reports the
     * exception a search can raise (see SearchThrows): it ends the frame
     * with the timer reset, the cache as it was and no movement.
     */
    method MoveToClosestEntity(entityType: string, deltaTime: real, gameSpeed: real, w: World)
      returns (thrown: bool)
      requires Valid() && localScale.x > 0.0
      modifies this`delayTimer, this`closestEntity, this`position, this`parent
      ensures Valid()
      ensures var tick := Advance(old(delayTimer), deltaTime * gameSpeed, updateClosestTimer);
        && delayTimer == tick.timer
        && (thrown <==> tick.fired && SearchThrows(w, old(position), localScale.x, entityType, self))
        && closestEntity == if tick.fired && !thrown
                            then NearestEntity(w, old(position), localScale.x, entityType)
                            else old(closestEntity)
      ensures thrown ==> State() == old(State()) && position == old(position)
      ensures !thrown ==> State() == Follow(old(State()), closestEntity)
      ensures !thrown ==>
                position == if closestEntity.Some? && !touchingOther
                            then Approach(old(position), w.localPositionOf(closestEntity.value),
                                          w.distance(old(position), w.localPositionOf(closestEntity.value)),
                                          localScale.x, moveSpeed, gameSpeed)
                            else old(position)
    {
      thrown := RefreshClosest(entityType, deltaTime, gameSpeed, w);
      if !thrown {
        MoveToEntity(closestEntity, gameSpeed, w);
      }
    }

    /**
     * The first half of a seeking frame: advance the shared timer and, when
     * it exceeds the search interval, reset it and search again.
     */
    method RefreshClosest(entityType: string, deltaTime: real, gameSpeed: real, w: World)
      returns (thrown: bool)
      requires localScale.x > 0.0
      modifies this`delayTimer, this`closestEntity
      ensures var tick := Advance(old(delayTimer), deltaTime * gameSpeed, updateClosestTimer);
        && delayTimer == tick.timer
        && (thrown <==> tick.fired && SearchThrows(w, position, localScale.x, entityType, self))
        && closestEntity == if tick.fired && !thrown
                            then NearestEntity(w, position, localScale.x, entityType)
                            else old(closestEntity)
    {
      thrown := false;
      delayTimer := delayTimer + deltaTime * gameSpeed;
      if delayTimer > updateClosestTimer {
        delayTimer := 0.0;
        var nearest;
        ghost var radii;
        nearest, thrown, radii := FindNearestEntity(entityType, w);
        if !thrown {
          closestEntity := nearest;
        }
      }
    }

    /**
     * The expanding-radius search for the nearest collider tagged
     * `entityType`. The ghost result lists the radii queried: none when no
     * object carries the tag, otherwise 2·scale, 4·scale, ... up to the pass
     * where the search stops, at most 501 of them. `thrown` reports the
     * exception raised by the error report of the last pass when the owner
     * was never set; `nearest` is meaningful only without it.
     */
    method FindNearestEntity(entityType: string, w: World)
      returns (nearest: Option<FrameId>, thrown: bool, ghost radii: seq<real>)
      requires localScale.x > 0.0
      ensures thrown <==> SearchThrows(w, position, localScale.x, entityType, self)
      ensures !thrown ==> nearest == NearestEntity(w, position, localScale.x, entityType)
      ensures w.tagCount(entityType) == 0 ==> radii == []
      ensures w.tagCount(entityType) > 0 ==>
                radii == Radii(localScale.x, StopPass(w, position, localScale.x, entityType, 0) + 1)
    {
      radii, thrown := [], false;
      if w.tagCount(entityType) == 0 {
        return None, thrown, radii;
      }
      var nearbyColliders, reachedBound;
      nearbyColliders, reachedBound, radii := WidenSearch(position, localScale.x, entityType, w);
      if reachedBound && self.None? {
        // the error report of the last pass reads self.ID
        return None, true, radii;
      }
      nearest := ChooseOfList(nearbyColliders, w);
    }

    /**
     * The loop of FindNearestEntity: query circles of growing radius around
     * `pos` until one holds a collider tagged `entityType` or the radius
     * passes 1000·scale. `reachedBound` tells whether the search ended on
     * that bound, where the source reports an error.
     */
    static method WidenSearch(pos: Vec, scale: real, entityType: string, w: World)
      returns (nearbyColliders: seq<Collider>, reachedBound: bool, ghost radii: seq<real>)
      requires scale > 0.0
      ensures nearbyColliders == Found(w, pos, scale, entityType, StopPass(w, pos, scale, entityType, 0))
      ensures reachedBound <==> StopPass(w, pos, scale, entityType, 0) == LastPass
      ensures radii == Radii(scale, StopPass(w, pos, scale, entityType, 0) + 1)
    {
      radii, reachedBound := [], false;
      nearbyColliders := [];
      var radius := 2.0 * scale;
      ghost var pass: nat := 0;
      ghost var stop := StopPass(w, pos, scale, entityType, 0);
      while |nearbyColliders| == 0
        invariant pass <= LastPass
        invariant radius == Radius(scale, pass)
        invariant radii == Radii(scale, pass)
        invariant nearbyColliders == [] ==> stop == StopPass(w, pos, scale, entityType, pass)
        invariant nearbyColliders != [] ==>
                    0 < pass && stop == pass - 1 && nearbyColliders == Found(w, pos, scale, entityType, stop)
        decreases LastPass - pass
      {
        var nearbyCollidersTemp := w.overlap(pos, radius);
        nearbyColliders := AddTagged(nearbyColliders, nearbyCollidersTemp, entityType);
        assert nearbyColliders == Found(w, pos, scale, entityType, pass);
        RadiusBound(scale, pass);
        radii := radii + [radius];
        if radius > scale * 1000.0 {
          assert StopPass(w, pos, scale, entityType, pass) == pass;
          reachedBound := true;
          pass := pass + 1;
          break;
        }
        if nearbyColliders == [] {
          assert StopPass(w, pos, scale, entityType, pass) == StopPass(w, pos, scale, entityType, pass + 1);
        } else {
          assert StopPass(w, pos, scale, entityType, pass) == pass;
        }
        radius := radius + 2.0 * scale;
        pass := pass + 1;
      }
      assert stop == pass - 1;
    }

    /**
     * The end of FindNearestEntity: no candidate gives nothing, a single
     * candidate is returned as it is, several go to FindClosestOfList.
     */
    method ChooseOfList(nearbyColliders: seq<Collider>, w: World) returns (nearest: Option<FrameId>)
      ensures nearest == Choose(w, position, nearbyColliders)
    {
      if |nearbyColliders| == 1 {
        nearest := Some(nearbyColliders[0].frame);
      } else if |nearbyColliders| > 1 {
        nearest := FindClosestOfList(nearbyColliders, w);
      } else {
        nearest := None;
      }
    }

    /** The foreach of FindNearestEntity: append to `list` each collider of `found` tagged `tag`, in order. */
    static method AddTagged(list: seq<Collider>, found: seq<Collider>, tag: string) returns (r: seq<Collider>)
      ensures r == list + Matching(found, tag)
    {
      r := list;
      for j := 0 to |found|
        invariant r == list + Matching(found[..j], tag)
      {
        assert found[..j + 1][..j] == found[..j];
        if found[j].tag == tag {
          r := r + [found[j]];
        }
      }
      assert found[..|found|] == found;
    }

    /**
     * The closest of `colliders` to this entity's position: a scan that
     * keeps a candidate only when strictly closer than the best so far, so
     * the first of several equally close colliders wins.
     */
    method FindClosestOfList(colliders: seq<Collider>, w: World) returns (closestTransform: Option<FrameId>)
      ensures colliders == [] ==> closestTransform == None
      ensures colliders != [] ==>
                exists k :: IsFirstMinimum(Distances(w, position, colliders), k) &&
                            closestTransform == Some(colliders[k].frame)
      ensures colliders != [] ==>
                closestTransform == Some(colliders[ArgMin(Distances(w, position, colliders))].frame)
    {
      var dist := Infinity;
      closestTransform := None;
      ghost var ds := Distances(w, position, colliders);
      for i := 0 to |colliders|
        invariant i == 0 ==> dist == Infinity && closestTransform == None
        invariant i > 0 ==> dist == Finite(ds[ArgMin(ds[..i])]) &&
                            closestTransform == Some(colliders[ArgMin(ds[..i])].frame)
      {
        assert ds[..i + 1][..i] == ds[..i];
        var tempDist := w.distance(position, w.positionOf(colliders[i].frame));
        if Below(tempDist, dist) {
          dist := Finite(tempDist);
          closestTransform := Some(colliders[i].frame);
        }
      }
      assert ds[..|colliders|] == ds;
    }

    /**
     * Towards a target entity: walk to its local position while not
     * touching anything; while touching, bind the transform to the touched
     * entity (not necessarily the target) unless already bound.
     */
    method MoveToEntity(target: Option<FrameId>, gameSpeed: real, w: World)
      requires Valid()
      modifies this`position, this`parent
      ensures Valid()
      ensures State() == Follow(old(State()), target)
      ensures position == if target.Some? && !touchingOther
                          then Approach(old(position), w.localPositionOf(target.value),
                                        w.distance(old(position), w.localPositionOf(target.value)),
                                        localScale.x, moveSpeed, gameSpeed)
                          else old(position)
    {
      if target.Some? {
        if !touchingOther {
          MoveToPosition(w.localPositionOf(target.value), gameSpeed, w);
        } else if parent != touchingEntity {
          parent := touchingEntity;
        }
      }
    }

    /** One step towards `target`, none when already within one body radius (localScale.x). */
    method MoveToPosition(target: Vec, gameSpeed: real, w: World)
      modifies this`position
      ensures position == Approach(old(position), target, w.distance(old(position), target),
                                   localScale.x, moveSpeed, gameSpeed)
    {
      var pos := position;
      var direction := Normalized(Sub(target, pos), w.distance(pos, target));
      if w.distance(pos, target) > localScale.x {
        position := Add(pos, Scale(direction, localScale.x * StepFactor * moveSpeed * gameSpeed));
      }
    }

    /** Whether the entity is attached: exactly when a touched entity is recorded. */
    method Attached() returns (attached: bool)
      requires Valid()
      ensures attached <==> touchingEntity.Some?
      ensures attached == touchingOther
    {
      return touchingOther;
    }

    /**
     * The owner of the touched frame, found through its Movement component;
     * nothing when no entity is touched or the frame has no initialised
     * Movement component.
     */
    method GetTouchingEntity(w: World) returns (entity: Option<EntityId>)
      requires Valid()
      ensures entity.Some? <==> touchingOther && touchingEntity.value in w.movers
      ensures entity.Some? ==> entity.value == w.movers[touchingEntity.value]
    {
      if touchingEntity.Some? && touchingEntity.value in w.movers {
        return Some(w.movers[touchingEntity.value]);
      }
      return None;
    }

    /** Unparent, keeping the absolute position, and forget the touched entity. */
    method Detach()
      modifies this`position, this`parent, this`touchingOther, this`touchingEntity
      ensures State() == Release(old(State())) == Detached
      ensures position == old(position)
    {
      var currentPos := position;
      parent := None;
      position := currentPos;
      touchingOther := false;
      touchingEntity := None;
    }

    /**
     * Sustained contact with another collider: attach to it if not attached
     * yet and its tag differs from this object's own.
     */
    method OnTriggerStay2D(col: Collider)
      requires Valid()
      modifies this`touchingOther, this`touchingEntity
      ensures Valid()
      ensures State() == Contact(old(State()), col, tag)
    {
      if !touchingOther {
        if col.tag != tag {
          touchingOther := true;
          touchingEntity := Some(col.frame);
        }
      }
    }
  }
}
