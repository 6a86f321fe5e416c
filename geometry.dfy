/**
 * Integer rectangles with pygame's overlap rules. A pygame Rect is a
 * top-left corner (x, y) and a size (w, h); sprite rectangles come from
 * image bounding boxes, so their sizes are never negative.
 */
module Geometry {
  datatype Point = Point(x: int, y: int)

  datatype Size = Size(w: nat, h: nat)

  datatype Rect = Rect(x: int, y: int, w: nat, h: nat)

  /** A rectangle of the given size whose top-left corner is (x, y). */
  function At(x: int, y: int, s: Size): Rect
  {
    Rect(x, y, s.w, s.h)
  }

  /** Rect.center: pygame halves the size with integer division. */
  function Center(r: Rect): Point
  {
    Point(r.x + r.w / 2, r.y + r.h / 2)
  }

  /** Rect.collidepoint: the right and bottom edges are outside the rectangle. */
  predicate CollidePoint(r: Rect, p: Point)
  {
    r.x <= p.x < r.x + r.w && r.y <= p.y < r.y + r.h
  }

  /**
   * Rect.colliderect: the interiors intersect. Rectangles whose edges only
   * touch do not collide, and an empty rectangle collides with nothing.
   */
  predicate Collide(a: Rect, b: Rect)
  {
    a.w > 0 && a.h > 0 && b.w > 0 && b.h > 0 &&
    a.x < b.x + b.w && a.y < b.y + b.h &&
    b.x < a.x + a.w && b.y < a.y + a.h
  }

  /** Rect.contains: inner lies entirely inside outer. */
  predicate Contains(outer: Rect, inner: Rect)
  {
    outer.x <= inner.x && outer.y <= inner.y &&
    inner.x + inner.w <= outer.x + outer.w &&
    inner.y + inner.h <= outer.y + outer.h &&
    inner.x < outer.x + outer.w && inner.y < outer.y + outer.h
  }

  /** spritecollide(sprite, group) returns a non-empty list. */
  predicate CollidesAny(r: Rect, group: seq<Rect>)
  {
    exists i :: 0 <= i < |group| && Collide(r, group[i])
  }

  /**
   * `if pg.sprite.spritecollide(sprite, group, False):` -- the list of
   * colliding members is built over the whole group and tested for emptiness.
   */
  method SpriteCollideAny(r: Rect, group: seq<Rect>) returns (hit: bool)
    ensures hit <==> CollidesAny(r, group)
    ensures !hit ==> forall i :: 0 <= i < |group| ==> !Collide(r, group[i])
  {
    hit := false;
    var i := 0;
    while i < |group|
      invariant 0 <= i <= |group|
      invariant hit <==> exists k :: 0 <= k < i && Collide(r, group[k])
    {
      if Collide(r, group[i]) {
        hit := true;
      }
      i := i + 1;
    }
  }

  /** Two rectangles collide exactly when some pixel lies inside both. */
  lemma CollideIffSharedPixel(a: Rect, b: Rect)
    ensures Collide(a, b) <==> exists p :: CollidePoint(a, p) && CollidePoint(b, p)
  {
    if Collide(a, b) {
      var p := Point(if a.x < b.x then b.x else a.x, if a.y < b.y then b.y else a.y);
      assert CollidePoint(a, p) && CollidePoint(b, p);
    }
  }

  /** Collision does not depend on which rectangle asks. */
  lemma CollideSymmetric(a: Rect, b: Rect)
    ensures Collide(a, b) <==> Collide(b, a)
  {
  }

  /** For a non-empty inner rectangle, containment is containment of every pixel. */
  lemma ContainsIffEveryPixel(outer: Rect, inner: Rect)
    requires inner.w > 0 && inner.h > 0
    ensures Contains(outer, inner) <==>
            forall p :: CollidePoint(inner, p) ==> CollidePoint(outer, p)
  {
    if forall p :: CollidePoint(inner, p) ==> CollidePoint(outer, p) {
      var first := Point(inner.x, inner.y);
      var last := Point(inner.x + inner.w - 1, inner.y + inner.h - 1);
      assert CollidePoint(inner, first) && CollidePoint(inner, last);
      assert CollidePoint(outer, first) && CollidePoint(outer, last);
    }
  }
}
