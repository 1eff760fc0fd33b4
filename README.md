# Movement component of the Zika simulation, modelled in Dafny

The simulation gives every entity a Unity behaviour, `Movement`
(`Assets/Scripts/Movement.cs`). Each frame it either wanders at random or
seeks the nearest entity of a given tag. When it touches an entity of another
tag it records that entity. Later, while it is still seeking a target, it
binds itself to the recorded entity by re-parenting its transform. It can
detach again.
This project models that component and proves what it does.

- `movement.dfy`, module `MovementComponent`: the class `Movement`. Its
  fields are those of the component, plus the parts of the game object
  (`tag`) and of the transform (`position`, `localScale`, `parent`) that the
  behaviour reads and writes. Each method is specified against the pure
  functions below.
- `nearest.dfy`, module `Nearest`: the expanding-radius search
  (`FindNearestEntity`) and the first arg-min (`FindClosestOfList`) as
  functions. Lemmas cover the radius schedule, the bound on passes, the tag
  filter, the tie-break and the result.
- `attachment.dfy`, module `Attachment`: the attachment state
  (`touchingOther`, `touchingEntity`, parent). It holds the transitions made by
  `OnTriggerStay2D`, `MoveToEntity` and `Detach`, and their invariants.
- `timer.dfy`, module `Timer`: the accumulate-then-reset timer that
  `RandomMovement` and `MoveToClosestEntity` share (one `delayTimer` field).
- `wander.dfy`, module `Wander`: the random draws of `RandomMovement`.
- `geometry.dfy`, module `Geometry`: vectors over the reals and one step of
  `MoveToPosition`.
- `engine.dfy`, module `Engine`: the engine services the component calls.
- `wrappers.dfy`: `Option`, which stands in for a nullable reference.

The engine is a `World` value passed to the methods. It holds these services:
- `Physics2D.OverlapCircleAll`, as `overlap`;
- the number of objects with a tag, as `tagCount`;
- `Vector2.Distance`, as `distance`;
- the positions of other transforms;
- `GetComponent<Movement>().self`, as the map `movers`.

`Time.deltaTime` is a method argument. So are the random draws: each is a
unit value `u` in [0, 1], and `Random.Range(lo, hi)` is `lo + u·(hi − lo)`.

The model copies the code where it may look unintended:
- The nearest-entity search does not exclude the caller's own collider.
  `SelfIsNotExcluded` shows that the search returns the caller itself when
  its own collider carries the tag.
- `Initialise` applies the speed argument only when `moveSpeed` is already
  non-zero. A component whose speed is 0 keeps speed 0.
- `MoveToEntity` walks towards the target's `localPosition`, not its world
  position.
- Both timers share `delayTimer`. Wandering can therefore leave the timer
  past the 0.2 s search interval, and the next seek frame then searches
  at once.
- The error report at the search's last pass reads `self.ID`. If
  `Initialise` has not run, `self` is null and the report throws.
  `SearchThrows` states when this happens. `FindNearestEntity` and
  `MoveToClosestEntity` return it as `thrown`. The exception leaves the
  seeking frame with the timer reset, the cached entity unchanged and no
  movement.

## Model

| member | source | states |
|---|---|---|
| `MovementComponent.Movement.constructor` | Assets/Scripts/Movement.cs:7-23 | A new component starts with every timer, draw and cache at its default, not touching anything and not parented. |
| `MovementComponent.Movement.Initialise` | Assets/Scripts/Movement.cs:25-38 | The search interval becomes 0.2, the cached nearest entity is cleared and the owner is recorded. The speed argument is taken only if `moveSpeed` was non-zero; a zero speed stays zero. |
| `MovementComponent.Movement.RandomMovement` | Assets/Scripts/Movement.cs:40-63 | The timer grows by deltaTime·gameSpeed. Past `randomDelay` it resets to 0, a new decision, delay and target are drawn, and the entity stays put. Otherwise it steps towards `noisePos` exactly when the last decision was ≥ 0.4. |
| `Wander.RandomRange` | Assets/Scripts/Movement.cs:57-58 | A draw from `Random.Range(lo, hi)` lies between its two bounds. |
| `Wander.NextDelay` | Assets/Scripts/Movement.cs:56-57 | A new cycle lasts at least 0.5: at most 2 for a hold (decision < 0.4), at most 3 for a walk. |
| `Wander.NextTarget` | Assets/Scripts/Movement.cs:58 | The new wander target lies within localScale·moveSpeed of the current position on each axis. |
| `Timer.AtMostOncePerPeriod` | Assets/Scripts/Movement.cs:73-77 | Over any run of frames, fires·period + the remaining timer ≤ the time accumulated. The periodic action therefore runs at most once per period. |
| `Timer.StaysWithinPeriod` | Assets/Scripts/Movement.cs:73-75 | With non-negative frame times, a timer that starts in [0, period] stays there. |
| `MovementComponent.Movement.MoveToClosestEntity` | Assets/Scripts/Movement.cs:65-79 | The cached nearest entity is recomputed, and the shared timer reset to 0, only on frames where the accumulated timer exceeds `updateClosestTimer`. It throws exactly when that search throws, and then the position and attachment are unchanged. Otherwise it moves towards, or binds to, the cached entity, as `MoveToEntity` does. |
| `MovementComponent.Movement.RefreshClosest` | Assets/Scripts/Movement.cs:73-77 | The shared timer advances. When it exceeds the search interval it resets and the cache takes the search's result, unless the search throws, in which case the cache keeps its old value. |
| `Nearest.MatchingIsFilter` | Assets/Scripts/Movement.cs:103-107 | A collider is collected exactly when the query returned it and its tag is the requested one. |
| `MovementComponent.Movement.AddTagged` | Assets/Scripts/Movement.cs:103-108 | The per-pass loop appends to the list exactly the query's colliders of the tag, in query order. |
| `Nearest.RadiusClosedForm` | Assets/Scripts/Movement.cs:99-115 | Pass p searches within 2·scale·(p + 1): it starts at 2·scale and grows by exactly 2·scale per pass. |
| `Nearest.RadiiAre` | Assets/Scripts/Movement.cs:99-115 | The radii queried, in order, are 2·scale, 4·scale, 6·scale, and so on. |
| `Nearest.RadiusBound` | Assets/Scripts/Movement.cs:110-114 | For scale > 0 the radius exceeds 1000·scale exactly from pass 500 on, so at most 501 passes run. |
| `Nearest.StopPass` | Assets/Scripts/Movement.cs:100-117 | With scale > 0 the expanding loop terminates, on a pass between the starting one and pass 500. |
| `Nearest.StopPassIsFirstFind` | Assets/Scripts/Movement.cs:100-117 | Every pass before the stopping one collects nothing. The stopping pass collects something unless it is pass 500, the safety bound. |
| `Nearest.Choose` | Assets/Scripts/Movement.cs:119-128 | No candidate gives null. Otherwise the result is the candidate at the first arg-min of the distances; the single-candidate shortcut agrees with it. |
| `MovementComponent.Movement.ChooseOfList` | Assets/Scripts/Movement.cs:119-128 | The end of the search returns null, the single match, or `FindClosestOfList` of the matches, as `Choose` states. |
| `Nearest.NearestEntity` | Assets/Scripts/Movement.cs:81-130 | The search gives null when no object carries the tag. A non-null result is the frame of a collider with the requested tag that the stopping pass's query returned. |
| `MovementComponent.Movement.FindNearestEntity` | Assets/Scripts/Movement.cs:81-130 | It throws exactly when `SearchThrows` holds. Otherwise the result is `NearestEntity`'s. No spatial query is made when the tag count is 0. Otherwise the radii queried are 2·scale, 4·scale, … up to the stopping pass. |
| `MovementComponent.Movement.WidenSearch` | Assets/Scripts/Movement.cs:97-117 | The loop collects the tagged colliders of the stopping pass. The radii it queries are 2·scale, 4·scale, … up to that pass. It reports reaching the 1000·scale bound exactly when it stops on pass 500. |
| `Nearest.ThrowsIffNothingBeforeLastPass` | Assets/Scripts/Movement.cs:100-113 | The error report throws exactly when the owner is unset, some object carries the tag, and no pass before the last collects a collider of the tag. |
| `Nearest.FoundWithinBound` | Assets/Scripts/Movement.cs:100-128 | A collider of the tag within the largest radius guarantees a non-null result. |
| `Nearest.SelfIsNotExcluded` | Assets/Scripts/Movement.cs:102-106 | Suppose the caller's own collider carries the tag and lies within the first radius, and every other match there is farther away. Then the search returns the caller's own frame. |
| `Nearest.ArgMin` | Assets/Scripts/Movement.cs:142-153 | The index returned holds a least distance, and every earlier index holds a strictly greater one. |
| `Nearest.FirstMinimumUnique` | Assets/Scripts/Movement.cs:145-151 | Exactly one index is the first minimum, the one `ArgMin` returns. |
| `Nearest.TieGoesToEarliest` | Assets/Scripts/Movement.cs:147-150 | With distances [5, 3, 3, 8] the strict `<` keeps index 1, not index 2. |
| `MovementComponent.Movement.FindClosestOfList` | Assets/Scripts/Movement.cs:132-154 | The scan from Infinity with a strict `<` returns null on an empty list. Otherwise it returns the collider at the first minimum of the distances from this entity. |
| `Geometry.NormalizedIsUnit` | Assets/Scripts/Movement.cs:184 | The direction is a unit vector, or the zero vector when the target is the current position. |
| `Geometry.ArrivedStaysPut` | Assets/Scripts/Movement.cs:185-188 | Within one body radius of the target the entity does not move. |
| `Geometry.ApproachDistance` | Assets/Scripts/Movement.cs:183-188 | Farther than one radius, a step of length radius·0.02·moveSpeed·gameSpeed (no longer than the distance) leaves the entity exactly that much closer. |
| `Geometry.OneTickScenario` | Assets/Scripts/Movement.cs:187 | From (0,0) towards (10,0), with radius, speed and game speed 1, one frame ends at (0.02, 0). |
| `MovementComponent.Movement.MoveToPosition` | Assets/Scripts/Movement.cs:174-189 | The new position is one step of the locomotion primitive from the old one. |
| `Attachment.FollowKeepsConsistent` | Assets/Scripts/Movement.cs:165-171 | Rebinding keeps the attachment invariant and never changes `touchingOther` or `touchingEntity`. |
| `Attachment.FollowIdempotent` | Assets/Scripts/Movement.cs:168-170 | After one call with a target, further calls leave the parent as it is. |
| `Attachment.FollowBindsToTouched` | Assets/Scripts/Movement.cs:165-171 | When not attached the parent never changes. When attached and given a target, the parent becomes the touched frame. |
| `MovementComponent.Movement.MoveToEntity` | Assets/Scripts/Movement.cs:156-172 | A null target changes nothing. Not attached, it steps towards the target's local position. Attached, it re-parents to the touched frame if needed and does not move. |
| `Attachment.ContactKeepsConsistent` | Assets/Scripts/Movement.cs:248-253 | A contact keeps the invariant: `touchingOther` holds exactly when `touchingEntity` is set, and the parent is either unset or the touched frame. It never changes the parent. |
| `Attachment.AttachedIgnoresContacts` | Assets/Scripts/Movement.cs:248-253 | Once attached, any run of later contacts leaves the state, `touchingEntity` included, unchanged. |
| `Attachment.AttachesToFirstStranger` | Assets/Scripts/Movement.cs:248-253 | From a detached state, a run of contacts attaches exactly when one of them has a tag other than its own. It then attaches to the first such one. |
| `MovementComponent.Movement.OnTriggerStay2D` | Assets/Scripts/Movement.cs:237-254 | The component attaches to the other collider's frame only if not yet attached and the tags differ, and it keeps the invariant. |
| `Attachment.ReleaseResets` | Assets/Scripts/Movement.cs:229-233 | From any state, detaching leaves `touchingOther` false, `touchingEntity` null and no parent. |
| `MovementComponent.Movement.Detach` | Assets/Scripts/Movement.cs:220-235 | Detaching resets the attachment state, and the absolute position equals its value before the call. |
| `MovementComponent.Movement.Attached` | Assets/Scripts/Movement.cs:191-199 | The answer is true exactly when a touched entity is recorded. |
| `MovementComponent.Movement.GetTouchingEntity` | Assets/Scripts/Movement.cs:201-218 | The result is the touched frame's owner. It is null when nothing is touched, or when the frame has no initialised Movement component (the caught exception). |

## Left out

- `MovementComponent.Movement.FindNearestEntity` requires `localScale.x > 0`. With scale 0 the source loops forever whenever nothing is found. Negative, mirrored scales are not modelled.
- `MovementComponent.Movement.MoveToClosestEntity` requires `localScale.x > 0`, because it calls `FindNearestEntity`.
- Floating point: the model computes over the reals. It has no float32 rounding, no NaN or infinity, and no radius accumulated with rounding error.
- `Vector2.normalized` is modelled as division by the distance, giving zero for a zero vector. Unity's 1e-5 cut-off is not modelled. `Vector2.Distance` is the engine's `distance`, and `ApproachDistance` assumes it is Euclidean.
- The random source: only the ranges of `Random.value` and `Random.Range` are modelled, not their uniform distribution.
- The transform hierarchy: `position` is the world position, and `SetParent` keeps it, as Unity does by default. A parent moving its attached children is the engine's concern.
- Unity's destroyed-object null, where a reference to a destroyed object compares equal to null, is not modelled.
- The text that the search's `print` and `GetTouchingEntity`'s `Debug.Log` write is left out. The null dereference in the `print` is modelled as `thrown`. What the exception does to the caller's frame beyond this component is not modelled.
- The z coordinate: the model positions are 2-D. The source passes positions through `Vector2` in `MoveToPosition` and `Detach`, which sets z to 0 when they are written back. The model does not capture that reset of z.
- Entities are assumed to start unparented. `Valid()` holds that the only parent is the touched frame, and the constructor starts with no parent. An entity spawned under some container transform is not covered by `MoveToEntity`, `MoveToClosestEntity`, `OnTriggerStay2D`, `Attached` or `GetTouchingEntity`. All five require `Valid()`.
- The engine's per-frame dispatch of `OnTriggerStay2D`, and the order in which it delivers contacts, is left out. The handler is a plain method.
