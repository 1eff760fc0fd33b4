/**
 * What FindNearestEntity and FindClosestOfList compute: an expanding-radius
 * search for colliders of one tag, and the first arg-min of their distances.
 */
module Nearest {
  import opened Wrappers
  import opened Geometry
  import opened Engine

  /** The colliders of `cs` whose tag is `tag`, in the order the engine listed them. */
  function Matching(cs: seq<Collider>, tag: string): (m: seq<Collider>)
    ensures |m| <= |cs|
  {
    if cs == [] then []
    else
      var last := cs[|cs| - 1];
      Matching(cs[..|cs| - 1], tag) + (if last.tag == tag then [last] else [])
  }

  /** Matching keeps exactly the colliders of the tag. */
  lemma {:induction false} MatchingIsFilter(cs: seq<Collider>, tag: string)
    ensures forall c :: c in Matching(cs, tag) <==> c in cs && c.tag == tag
  {
    if cs != [] {
      var init := cs[..|cs| - 1];
      MatchingIsFilter(init, tag);
      assert cs == init + [cs[|cs| - 1]];
    }
  }

  /**
   * Index `k` holds a least element of `ds` and no earlier element is as
   * small: the element a left-to-right scan with a strict `<` keeps.
   */
  predicate IsFirstMinimum(ds: seq<real>, k: int)
  {
    0 <= k < |ds| &&
    (forall j :: 0 <= j < |ds| ==> ds[k] <= ds[j]) &&
    (forall j :: 0 <= j < k ==> ds[k] < ds[j])
  }

  /** The first index of a least element of a non-empty sequence. */
  function ArgMin(ds: seq<real>): (k: nat)
    requires ds != []
    ensures IsFirstMinimum(ds, k)
  {
    if |ds| == 1 then 0
    else
      var k := ArgMin(ds[..|ds| - 1]);
      if ds[|ds| - 1] < ds[k] then |ds| - 1 else k
  }

  /** The first minimum is unique: ArgMin is the only index with that property. */
  lemma FirstMinimumUnique(ds: seq<real>, k: int)
    requires IsFirstMinimum(ds, k)
    ensures ds != [] && k == ArgMin(ds)
  {
  }

  /** Distances [5, 3, 3, 8]: the tie between indices 1 and 2 goes to index 1. */
  lemma TieGoesToEarliest()
    ensures ArgMin([5.0, 3.0, 3.0, 8.0]) == 1
  {
    FirstMinimumUnique([5.0, 3.0, 3.0, 8.0], 1);
  }

  /** Vector2.Distance from `pos` to the position of each collider's frame. */
  function Distances(w: World, pos: Vec, cs: seq<Collider>): (ds: seq<real>)
    ensures |ds| == |cs|
    ensures forall i :: 0 <= i < |cs| ==> ds[i] == w.distance(pos, w.positionOf(cs[i].frame))
  {
    seq(|cs|, i requires 0 <= i < |cs| => w.distance(pos, w.positionOf(cs[i].frame)))
  }

  /**
   * The choice made once the search has candidates: none, the only one, or
   * the closest of several. The one-candidate shortcut agrees with the arg-min.
   */
  function Choose(w: World, pos: Vec, found: seq<Collider>): (r: Option<FrameId>)
    ensures found == [] ==> r == None
    ensures found != [] ==> r == Some(found[ArgMin(Distances(w, pos, found))].frame)
  {
    if |found| == 0 then None
    else if |found| == 1 then Some(found[0].frame)
    else Some(found[ArgMin(Distances(w, pos, found))].frame)
  }

  /**
   * The search radius on pass `pass` (counting from 0): it starts at
   * 2·scale and each later pass adds 2·scale.
   */
  function Radius(scale: real, pass: nat): real
  {
    if pass == 0 then 2.0 * scale else Radius(scale, pass - 1) + 2.0 * scale
  }

  /** Pass `pass` searches within 2·scale·(pass + 1). */
  lemma {:induction false} RadiusClosedForm(scale: real, pass: nat)
    ensures Radius(scale, pass) == 2.0 * scale * (pass + 1) as real
  {
    if pass > 0 {
      RadiusClosedForm(scale, pass - 1);
      assert (pass + 1) as real == pass as real + 1.0;
    }
  }

  /** The radii of the first `n` passes, in order. */
  function Radii(scale: real, n: nat): (rs: seq<real>)
    ensures |rs| == n
  {
    if n == 0 then [] else Radii(scale, n - 1) + [Radius(scale, n - 1)]
  }

  /** The radii queried are 2·scale, 4·scale, 6·scale, ... */
  lemma {:induction false} RadiiAre(scale: real, n: nat, i: nat)
    requires i < n
    ensures Radii(scale, n)[i] == 2.0 * scale * (i + 1) as real
  {
    if i < n - 1 {
      RadiiAre(scale, n - 1, i);
    } else {
      RadiusClosedForm(scale, i);
    }
  }

  /** The passes stop once the radius exceeds 1000·scale, that is after pass 500. */
  const LastPass := 500

  lemma RadiusBound(scale: real, pass: nat)
    requires scale > 0.0
    ensures Radius(scale, pass) > scale * 1000.0 <==> pass >= LastPass
  {
    RadiusClosedForm(scale, pass);
    if pass >= LastPass {
      assert (pass + 1) as real > 500.0;
      assert 2.0 * scale * (pass + 1) as real > 2.0 * scale * 500.0;
    } else {
      assert (pass + 1) as real <= 500.0;
      assert 2.0 * scale * (pass + 1) as real <= 2.0 * scale * 500.0;
    }
  }

  /** The colliders of tag `tag` that pass `pass` collects. */
  function Found(w: World, pos: Vec, scale: real, tag: string, pass: nat): seq<Collider>
  {
    Matching(w.overlap(pos, Radius(scale, pass)), tag)
  }

  /**
   * The pass on which the expanding search starting at `pass` stops: the
   * first one that collects a collider of the tag, or the last one allowed.
   */
  function StopPass(w: World, pos: Vec, scale: real, tag: string, pass: nat): (last: nat)
    requires scale > 0.0 && pass <= LastPass
    ensures pass <= last <= LastPass
    decreases LastPass - pass
  {
    RadiusBound(scale, pass);
    if Found(w, pos, scale, tag, pass) != [] || Radius(scale, pass) > scale * 1000.0 then pass
    else StopPass(w, pos, scale, tag, pass + 1)
  }

  /**
   * The search widens only while nothing has been found: every pass before
   * the stopping one collects nothing, and the stopping one collects
   * something unless it is the last pass allowed.
   */
  lemma {:induction false} StopPassIsFirstFind(w: World, pos: Vec, scale: real, tag: string, pass: nat)
    requires scale > 0.0 && pass <= LastPass
    ensures var last := StopPass(w, pos, scale, tag, pass);
      && (Found(w, pos, scale, tag, last) == [] ==> last == LastPass)
      && forall p :: pass <= p < last ==> Found(w, pos, scale, tag, p) == []
    decreases LastPass - pass
  {
    RadiusBound(scale, pass);
    if Found(w, pos, scale, tag, pass) == [] && Radius(scale, pass) <= scale * 1000.0 {
      StopPassIsFirstFind(w, pos, scale, tag, pass + 1);
    }
  }

  /**
   * FindNearestEntity: nothing when no object carries the tag; otherwise the
   * choice among the colliders collected on the pass where the search stops.
   */
  function NearestEntity(w: World, pos: Vec, scale: real, tag: string): (r: Option<FrameId>)
    requires scale > 0.0
    ensures w.tagCount(tag) == 0 ==> r == None
    ensures r.Some? ==> exists c :: c in w.overlap(pos, Radius(scale, StopPass(w, pos, scale, tag, 0))) &&
                                    c.tag == tag && c.frame == r.value
  {
    if w.tagCount(tag) == 0 then None
    else
      var found := Found(w, pos, scale, tag, StopPass(w, pos, scale, tag, 0));
      var r := Choose(w, pos, found);
      MatchingIsFilter(w.overlap(pos, Radius(scale, StopPass(w, pos, scale, tag, 0))), tag);
      assert r.Some? ==> found[ArgMin(Distances(w, pos, found))] in found;
      r
  }

  /**
   * When some collider of the tag lies within the largest radius, the
   * search returns a frame rather than nothing.
   */
  lemma {:induction false} FoundWithinBound(w: World, pos: Vec, scale: real, tag: string, c: Collider)
    requires scale > 0.0 && w.tagCount(tag) > 0
    requires c.tag == tag && c in w.overlap(pos, Radius(scale, LastPass))
    ensures NearestEntity(w, pos, scale, tag).Some?
  {
    StopPassIsFirstFind(w, pos, scale, tag, 0);
    MatchingIsFilter(w.overlap(pos, Radius(scale, LastPass)), tag);
  }

  /**
   * The error report of the last pass reads the owner's ID, so the search
   * of a component whose owner was never set throws there: when some object
   * carries the tag and the search runs to the last pass.
   */
  predicate SearchThrows(w: World, pos: Vec, scale: real, tag: string, self: Option<EntityId>)
    requires scale > 0.0
  {
    self.None? && w.tagCount(tag) > 0 && StopPass(w, pos, scale, tag, 0) == LastPass
  }

  /**
   * An ownerless search throws exactly when no pass before the last one
   * collects a collider of the tag.
   */
  lemma {:induction false} ThrowsIffNothingBeforeLastPass(w: World, pos: Vec, scale: real, tag: string,
                                                          self: Option<EntityId>)
    requires scale > 0.0
    ensures SearchThrows(w, pos, scale, tag, self) <==>
              && self.None?
              && w.tagCount(tag) > 0
              && forall p :: 0 <= p < LastPass ==> Found(w, pos, scale, tag, p) == []
  {
    StopPassIsFirstFind(w, pos, scale, tag, 0);
    var last := StopPass(w, pos, scale, tag, 0);
    if last < LastPass {
      assert Found(w, pos, scale, tag, last) != [];
    }
  }

  /**
   * The caller is not excluded from its own search: when its own collider
   * (at distance 0) carries the tag and lies within the first radius, and
   * every other collider of the tag there is farther away, the search
   * returns the caller's own frame.
   */
  lemma {:induction false} SelfIsNotExcluded(w: World, pos: Vec, scale: real, tag: string, own: Collider)
    requires scale > 0.0 && w.tagCount(tag) > 0
    requires own.tag == tag && own in w.overlap(pos, Radius(scale, 0))
    requires w.distance(pos, w.positionOf(own.frame)) == 0.0
    requires forall c :: c in w.overlap(pos, Radius(scale, 0)) && c.tag == tag && c != own ==>
                         w.distance(pos, w.positionOf(c.frame)) > 0.0
    ensures NearestEntity(w, pos, scale, tag) == Some(own.frame)
  {
    var found := Found(w, pos, scale, tag, 0);
    MatchingIsFilter(w.overlap(pos, Radius(scale, 0)), tag);
    assert own in found;
    assert StopPass(w, pos, scale, tag, 0) == 0;
    var ds := Distances(w, pos, found);
    var k := ArgMin(ds);
    var i :| 0 <= i < |found| && found[i] == own;
    assert ds[k] <= ds[i] == 0.0;
    assert found[k] in found;
  }
}
