/**
 * The attachment state of a Movement component (touchingOther,
 * touchingEntity and the transform's parent) and how OnTriggerStay2D,
 * MoveToEntity and Detach change it.
 */
module Attachment {
  import opened Wrappers
  import opened Engine

  datatype Attachment = Attachment(touchingOther: bool, touchingEntity: Option<FrameId>, parent: Option<FrameId>)

  /**
   * touchingOther holds exactly when touchingEntity is set, and the only
   * parent the component ever gives its transform is the touched frame.
   */
  predicate Consistent(a: Attachment)
  {
    (a.touchingOther <==> a.touchingEntity.Some?) &&
    (a.parent.Some? ==> a.parent == a.touchingEntity)
  }

  /** Not touching anything and not parented: the state Detach leaves behind. */
  const Detached := Attachment(false, None, None)

  /** OnTriggerStay2D: attach to the other collider's frame, once, and only to a differently tagged object. */
  function Contact(a: Attachment, other: Collider, ownTag: string): Attachment
  {
    if !a.touchingOther && other.tag != ownTag then
      a.(touchingOther := true, touchingEntity := Some(other.frame))
    else a
  }

  /** The part of MoveToEntity that rebinds the parent: only for a target, only while touching. */
  function Follow(a: Attachment, target: Option<FrameId>): Attachment
  {
    if target.Some? && a.touchingOther && a.parent != a.touchingEntity then
      a.(parent := a.touchingEntity)
    else a
  }

  /** Detach: unparent and forget the touched frame. */
  function Release(a: Attachment): Attachment
  {
    a.(parent := None, touchingOther := false, touchingEntity := None)
  }

  /** A sequence of contact events, in order. */
  function Contacts(a: Attachment, cs: seq<Collider>, ownTag: string): Attachment
    decreases cs
  {
    if cs == [] then a else Contacts(Contact(a, cs[0], ownTag), cs[1..], ownTag)
  }

  lemma ContactKeepsConsistent(a: Attachment, other: Collider, ownTag: string)
    requires Consistent(a)
    ensures Consistent(Contact(a, other, ownTag))
    ensures Contact(a, other, ownTag).parent == a.parent
  {
  }

  lemma FollowKeepsConsistent(a: Attachment, target: Option<FrameId>)
    requires Consistent(a)
    ensures Consistent(Follow(a, target))
    ensures Follow(a, target).touchingOther == a.touchingOther
    ensures Follow(a, target).touchingEntity == a.touchingEntity
  {
  }

  /** Detach resets everything, from any state. */
  lemma ReleaseResets(a: Attachment)
    ensures Release(a) == Detached && Consistent(Release(a))
  {
  }

  /** Once attached, no later contact, with whatever object, changes the attachment. */
  lemma {:induction false} AttachedIgnoresContacts(a: Attachment, cs: seq<Collider>, ownTag: string)
    decreases cs
    requires a.touchingOther
    ensures Contacts(a, cs, ownTag) == a
  {
    if cs != [] {
      AttachedIgnoresContacts(Contact(a, cs[0], ownTag), cs[1..], ownTag);
    }
  }

  /**
   * From a detached state, a run of contacts attaches exactly when one of
   * them carries a tag other than the component's own, and then to the
   * first such collider; the parent is left alone.
   */
  lemma {:induction false} AttachesToFirstStranger(a: Attachment, cs: seq<Collider>, ownTag: string)
    decreases cs
    requires !a.touchingOther
    ensures var r := Contacts(a, cs, ownTag);
      && r.parent == a.parent
      && (r.touchingOther <==> exists c :: c in cs && c.tag != ownTag)
      && (r.touchingOther ==> exists i :: 0 <= i < |cs| && cs[i].tag != ownTag &&
                                          (forall j :: 0 <= j < i ==> cs[j].tag == ownTag) &&
                                          r.touchingEntity == Some(cs[i].frame))
      && (!r.touchingOther ==> r == a)
  {
    if cs != [] {
      var b := Contact(a, cs[0], ownTag);
      if b.touchingOther {
        AttachedIgnoresContacts(b, cs[1..], ownTag);
        assert cs[0] in cs;
      } else {
        AttachesToFirstStranger(b, cs[1..], ownTag);
        var r := Contacts(b, cs[1..], ownTag);
        if r.touchingOther {
          var i :| 0 <= i < |cs[1..]| && cs[1..][i].tag != ownTag &&
                   (forall j :: 0 <= j < i ==> cs[1..][j].tag == ownTag) &&
                   r.touchingEntity == Some(cs[1..][i].frame);
          assert cs[i + 1] == cs[1..][i];
          assert forall j :: 0 <= j < i + 1 ==> cs[j].tag == ownTag by {
            forall j | 0 <= j < i + 1 ensures cs[j].tag == ownTag {
              if j > 0 { assert cs[j] == cs[1..][j - 1]; }
            }
          }
        }
        assert forall c :: c in cs ==> c == cs[0] || c in cs[1..];
      }
    }
  }

  /** Rebinding is idempotent: after a call with a target, later calls change nothing. */
  lemma FollowIdempotent(a: Attachment, first: Option<FrameId>, later: Option<FrameId>)
    requires first.Some?
    ensures Follow(Follow(a, first), later) == Follow(a, first)
  {
  }

  /** Without an attachment MoveToEntity never touches the parent; with one it parents to the touched frame. */
  lemma FollowBindsToTouched(a: Attachment, target: Option<FrameId>)
    requires Consistent(a)
    ensures !a.touchingOther ==> Follow(a, target) == a
    ensures a.touchingOther && target.Some? ==> Follow(a, target).parent == a.touchingEntity != None
  {
  }
}
