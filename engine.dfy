/**
 * The host engine as the Movement component sees it. Identities stand for
 * Unity object references; the engine's queries are values handed to the
 * component rather than global calls.
 */
module Engine {
  import opened Geometry

  /** Identity of a Transform (a position frame). */
  type FrameId = nat

  /** Identity of a simulated Entity (its ID). */
  type EntityId = nat

  /** A Collider2D as the search sees it: the frame it belongs to and its game object's tag. */
  datatype Collider = Collider(frame: FrameId, tag: string)

  /**
   * A snapshot of the engine services used during one tick:
   *  - overlap(p, r): Physics2D.OverlapCircleAll, the colliders within r of p, in the engine's order;
   *  - tagCount(t): GameObject.FindGameObjectsWithTag(t).Length;
   *  - distance(a, b): Vector2.Distance;
   *  - positionOf / localPositionOf: another frame's transform.position / transform.localPosition;
   *  - movers: for each frame that has a Movement component with its owner set, that owner
   *    (GetComponent<Movement>().self).
   */
  datatype World = World(
    overlap: (Vec, real) -> seq<Collider>,
    tagCount: string -> nat,
    distance: (Vec, Vec) -> real,
    positionOf: FrameId -> Vec,
    localPositionOf: FrameId -> Vec,
    movers: map<FrameId, EntityId>)
}
