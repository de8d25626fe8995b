// Difference descriptors in the normalized image plane, their bounding boxes
// and the padded box-overlap test used to keep generated differences apart
// (checkCollision and its getBounds helper in script.js).
module Geometry {

  /** The shape kinds a difference can take. A circle carries a radius; the
      others a width and a height, which an ellipse reads as its two radii. */
  datatype Shape =
    | Circle(r: real)
    | Ellipse(w: real, h: real)
    | Rect(w: real, h: real)
    | Triangle(w: real, h: real)

  /** One generated difference. (x, y) is the centre of a circle or an
      ellipse and the top-left corner of a rectangle or a triangle; all
      lengths are fractions of the image. `iq` is the tier that made it. */
  datatype DiffConfig = DiffConfig(name: string, x: real, y: real, shape: Shape, color: string, iq: int)

  /** An axis-aligned box: top-left corner and size. */
  datatype Box = Box(x: real, y: real, w: real, h: real)

  /** Margin added around the new difference's box, split over both sides. */
  const PADDING: real := 0.05

  /** Every size of the shape is positive (true of every generated difference). */
  predicate ShapeValid(s: Shape) {
    match s
    case Circle(r) => r > 0.0
    case Ellipse(w, h) => w > 0.0 && h > 0.0
    case Rect(w, h) => w > 0.0 && h > 0.0
    case Triangle(w, h) => w > 0.0 && h > 0.0
  }

  /** getBounds: a circle becomes centre +- r, an ellipse centre +- (w, h),
      a rectangle or triangle its origin and size. */
  function GetBounds(d: DiffConfig): Box {
    match d.shape
    case Circle(r) => Box(d.x - r, d.y - r, r * 2.0, r * 2.0)
    case Ellipse(w, h) => Box(d.x - w, d.y - h, w * 2.0, h * 2.0)
    case Rect(w, h) => Box(d.x, d.y, w, h)
    case Triangle(w, h) => Box(d.x, d.y, w, h)
  }

  /** The box grown by PADDING / 2 on every side. */
  function Pad(b: Box): Box {
    Box(b.x - PADDING / 2.0, b.y - PADDING / 2.0, b.w + PADDING, b.h + PADDING)
  }

  /** The strict AABB test of checkCollision. */
  predicate BoxesOverlap(b1: Box, b2: Box) {
    b1.x < b2.x + b2.w && b1.x + b1.w > b2.x && b1.y < b2.y + b2.h && b1.y + b1.h > b2.y
  }

  /** The new difference, padded, overlaps one existing difference. */
  predicate CollidesWith(newDiff: DiffConfig, existing: DiffConfig) {
    BoxesOverlap(Pad(GetBounds(newDiff)), GetBounds(existing))
  }

  /** The new difference, padded, overlaps some existing difference. */
  predicate Collides(newDiff: DiffConfig, existingDiffs: seq<DiffConfig>)
    decreases |existingDiffs|
  {
    && existingDiffs != []
    && (Collides(newDiff, existingDiffs[..|existingDiffs| - 1]) || CollidesWith(newDiff, existingDiffs[|existingDiffs| - 1]))
  }

  /** Collides holds exactly when one existing difference collides. */
  lemma {:induction false} CollidesSome(newDiff: DiffConfig, existingDiffs: seq<DiffConfig>)
    ensures Collides(newDiff, existingDiffs) <==>
      exists i :: 0 <= i < |existingDiffs| && CollidesWith(newDiff, existingDiffs[i])
    decreases |existingDiffs|
  {
    if existingDiffs != [] {
      var n := |existingDiffs| - 1;
      var front := existingDiffs[..n];
      CollidesSome(newDiff, front);
      if exists i :: 0 <= i < |existingDiffs| && CollidesWith(newDiff, existingDiffs[i]) {
        var i :| 0 <= i < |existingDiffs| && CollidesWith(newDiff, existingDiffs[i]);
        if i < n {
          assert front[i] == existingDiffs[i];
        }
      }
      if Collides(newDiff, front) {
        var i :| 0 <= i < n && CollidesWith(newDiff, front[i]);
        assert front[i] == existingDiffs[i];
      }
    }
  }

  /** checkCollision: pad the new box, then scan the existing differences and
      stop at the first whose box it overlaps. */
  method CheckCollision(newDiff: DiffConfig, existingDiffs: seq<DiffConfig>) returns (collision: bool)
    ensures collision <==> Collides(newDiff, existingDiffs)
    ensures existingDiffs == [] ==> !collision
  {
    var b1 := GetBounds(newDiff);
    b1 := b1.(x := b1.x - PADDING / 2.0);
    b1 := b1.(y := b1.y - PADDING / 2.0);
    b1 := b1.(w := b1.w + PADDING);
    b1 := b1.(h := b1.h + PADDING);
    var i := 0;
    while i < |existingDiffs|
      invariant 0 <= i <= |existingDiffs|
      invariant b1 == Pad(GetBounds(newDiff))
      invariant !Collides(newDiff, existingDiffs[..i])
    {
      var b2 := GetBounds(existingDiffs[i]);
      assert existingDiffs[..i + 1][..i] == existingDiffs[..i];
      if b1.x < b2.x + b2.w && b1.x + b1.w > b2.x && b1.y < b2.y + b2.h && b1.y + b1.h > b2.y {
        assert Collides(newDiff, existingDiffs[..i + 1]);
        CollidesPrefix(newDiff, existingDiffs, i + 1);
        return true;
      }
      i := i + 1;
    }
    assert existingDiffs[..i] == existingDiffs;
    return false;
  }

  /** A collision with a prefix of the list is a collision with the list. */
  lemma {:induction false} CollidesPrefix(newDiff: DiffConfig, existingDiffs: seq<DiffConfig>, k: nat)
    requires k <= |existingDiffs| && Collides(newDiff, existingDiffs[..k])
    ensures Collides(newDiff, existingDiffs)
    decreases |existingDiffs| - k
  {
    if k < |existingDiffs| {
      var s := existingDiffs[..k + 1];
      assert s[..k] == existingDiffs[..k];
      CollidesPrefix(newDiff, existingDiffs, k + 1);
    } else {
      assert existingDiffs[..k] == existingDiffs;
    }
  }

  /** Padding the new box by PADDING / 2 per side gives the same answer as
      padding the existing box instead: the test does not depend on which of
      the two is the new one. */
  lemma CollidesWithSymmetric(a: DiffConfig, b: DiffConfig)
    ensures CollidesWith(a, b) <==> CollidesWith(b, a)
    ensures CollidesWith(a, b) <==> BoxesOverlap(GetBounds(a), Pad(GetBounds(b)))
  {
  }

  // ---------------------------------------------------------------------
  // The true shapes in the normalized plane, and why the boxes are safe.

  /** The point (px, py) of the normalized plane lies on the shape: a disc
      of radius r, a filled ellipse with radii (w, h), a filled rectangle,
      or the triangle with corners (x, y), (x + w, y + h/2), (x, y + h).
      Stretched to a w x h canvas this is what is painted for every shape
      except a circle, whose painted radius is r * w pixels on both axes,
      so its vertical normalized radius is r * w / h
      (Projection.PaintedInsideBounds, Projection.WideCanvasCircleLeavesBox). */
  predicate Covers(d: DiffConfig, px: real, py: real) {
    var dx := px - d.x;
    var dy := py - d.y;
    match d.shape
    case Circle(r) => dx * dx + dy * dy <= r * r
    case Ellipse(w, h) => w != 0.0 && h != 0.0 && (dx / w) * (dx / w) + (dy / h) * (dy / h) <= 1.0
    case Rect(w, h) => 0.0 <= dx <= w && 0.0 <= dy <= h
    case Triangle(w, h) => 0.0 <= dx && h * dx <= 2.0 * w * dy && h * dx <= 2.0 * w * (h - dy)
  }

  predicate InBox(b: Box, px: real, py: real) {
    b.x <= px <= b.x + b.w && b.y <= py <= b.y + b.h
  }

  lemma SquareGrows(r: real, a: real)
    requires 0.0 <= r < a
    ensures r * r < a * a
  {
    var ra := r * a;
    assert ra < a * a;
    assert r * r <= ra;
  }

  lemma ScaleUnit(u: real, w: real)
    requires -1.0 <= u <= 1.0 && w > 0.0
    ensures -w <= u * w <= w
  {
  }

  lemma SquareBound(a: real, r: real)
    requires r >= 0.0 && a * a <= r * r
    ensures -r <= a <= r
  {
    if a > r {
      SquareGrows(r, a);
    } else if a < -r {
      SquareGrows(r, -a);
    }
  }

  lemma CancelPositive(a: real, b: real, c: real)
    requires c > 0.0 && a * c <= b * c
    ensures a <= b
  {
  }

  /** A point of a disc of radius r is within r of the centre on each axis. */
  lemma {:induction false} DiscInside(dx: real, dy: real, r: real)
    requires r > 0.0 && dx * dx + dy * dy <= r * r
    ensures -r <= dx <= r && -r <= dy <= r
  {
    var dx2, dy2 := dx * dx, dy * dy;
    assert dx2 >= 0.0 && dy2 >= 0.0;
    SquareBound(dx, r);
    SquareBound(dy, r);
  }

  /** A point of an ellipse with radii w and h is within w and h of the
      centre. */
  lemma {:induction false} EllipseInside(dx: real, dy: real, w: real, h: real)
    requires w > 0.0 && h > 0.0 && (dx / w) * (dx / w) + (dy / h) * (dy / h) <= 1.0
    ensures -w <= dx <= w && -h <= dy <= h
  {
    var u, v := dx / w, dy / h;
    var uu, vv := u * u, v * v;
    assert uu >= 0.0 && vv >= 0.0;
    SquareBound(u, 1.0);
    SquareBound(v, 1.0);
    ScaleUnit(u, w);
    ScaleUnit(v, h);
    assert u * w == dx && v * h == dy;
  }

  /** A point of the triangle lies in its w x h box. */
  lemma {:induction false} TriangleInside(dx: real, dy: real, w: real, h: real)
    requires w > 0.0 && h > 0.0
    requires 0.0 <= dx && h * dx <= 2.0 * w * dy && h * dx <= 2.0 * w * (h - dy)
    ensures 0.0 <= dx <= w && 0.0 <= dy <= h
  {
    var hdx := h * dx;
    assert hdx >= 0.0;
    CancelPositive(0.0, dy, 2.0 * w);
    CancelPositive(0.0, h - dy, 2.0 * w);
    assert dx * h <= w * h;
    CancelPositive(dx, w, h);
  }

  /** Every point of the normalized shape of a well-formed difference lies
      inside its bounding box. */
  lemma {:induction false} CoversInsideBounds(d: DiffConfig, px: real, py: real)
    requires ShapeValid(d.shape) && Covers(d, px, py)
    ensures InBox(GetBounds(d), px, py)
  {
    var dx := px - d.x;
    var dy := py - d.y;
    match d.shape
    case Circle(r) => DiscInside(dx, dy, r);
    case Ellipse(w, h) => EllipseInside(dx, dy, w, h);
    case Rect(w, h) =>
    case Triangle(w, h) => TriangleInside(dx, dy, w, h);
  }

  /** The padded test never misses a real overlap: if one point lies on both
      normalized shapes, each of the two reports a collision with the other. */
  lemma {:induction false} OverlapIsDetected(a: DiffConfig, b: DiffConfig, px: real, py: real)
    requires ShapeValid(a.shape) && ShapeValid(b.shape)
    requires Covers(a, px, py) && Covers(b, px, py)
    ensures CollidesWith(a, b) && CollidesWith(b, a)
  {
    CoversInsideBounds(a, px, py);
    CoversInsideBounds(b, px, py);
  }

  /** A difference that collides with none of the existing ones shares no
      point of its normalized shape with any of them. */
  lemma {:induction false} NoCollisionMeansDisjoint(newDiff: DiffConfig, existingDiffs: seq<DiffConfig>)
    requires !Collides(newDiff, existingDiffs)
    requires ShapeValid(newDiff.shape)
    requires forall i :: 0 <= i < |existingDiffs| ==> ShapeValid(existingDiffs[i].shape)
    ensures forall i, px, py :: 0 <= i < |existingDiffs| && Covers(existingDiffs[i], px, py) ==> !Covers(newDiff, px, py)
  {
    CollidesSome(newDiff, existingDiffs);
    forall i, px, py | 0 <= i < |existingDiffs| && Covers(existingDiffs[i], px, py)
      ensures !Covers(newDiff, px, py)
    {
      if Covers(newDiff, px, py) {
        OverlapIsDetected(newDiff, existingDiffs[i], px, py);
      }
    }
  }
}
