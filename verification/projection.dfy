// applyDifferences in script.js: each generated difference becomes an
// active difference record with pixel geometry for the right canvas, which
// checkClick later hit-tests.
module Projection {
  import opened Geometry

  /** The pixel geometry stored on a difference record: a circle keeps its
      centre and radius; every other shape keeps a box (for an ellipse, its
      bounding box). */
  datatype PixelShape =
    | PixelCircle(cx: real, cy: real, radius: real)
    | PixelBox(rx: real, ry: real, rw: real, rh: real)

  /** An active difference: the generated configuration, whether it has been
      found, its index in the generated list, and its pixel geometry. */
  datatype Difference = Difference(config: DiffConfig, found: bool, id: nat, pixels: PixelShape)

  /** The pixel geometry for a canvas of w x h pixels. The circle's radius
      scales with the width only. */
  function Project(c: DiffConfig, w: nat, h: nat): PixelShape {
    var W, H := w as real, h as real;
    match c.shape
    case Circle(r) => PixelCircle(c.x * W, c.y * H, r * W)
    case Ellipse(ew, eh) =>
      var cx, cy, rw, rh := c.x * W, c.y * H, ew * W, eh * H;
      PixelBox(cx - rw, cy - rh, rw * 2.0, rh * 2.0)
    case Rect(rw, rh) => PixelBox(c.x * W, c.y * H, rw * W, rh * H)
    case Triangle(tw, th) => PixelBox(c.x * W, c.y * H, tw * W, th * H)
  }

  /** The record applyDifferences makes for the index-th configuration. */
  function Activate(c: DiffConfig, index: nat, w: nat, h: nat): Difference {
    Difference(c, false, index, Project(c, w, h))
  }

  /** The list applyDifferences builds: one unfound record per
      configuration, in order, each with its index as id. */
  ghost predicate Fresh(ds: seq<Difference>, cs: seq<DiffConfig>, w: nat, h: nat) {
    && |ds| == |cs|
    && forall i :: 0 <= i < |ds| ==> ds[i] == Activate(cs[i], i, w, h)
  }

  /** The records are those of the configurations at a w x h canvas, up to
      their found flags. */
  ghost predicate Matches(ds: seq<Difference>, cs: seq<DiffConfig>, w: nat, h: nat) {
    && |ds| == |cs|
    && forall i :: 0 <= i < |ds| ==> ds[i] == Activate(cs[i], i, w, h).(found := ds[i].found)
  }

  /** Fresh records match their configurations and are all unfound. */
  lemma FreshMatches(ds: seq<Difference>, cs: seq<DiffConfig>, w: nat, h: nat)
    requires Fresh(ds, cs, w, h)
    ensures Matches(ds, cs, w, h)
    ensures forall i :: 0 <= i < |ds| ==> !ds[i].found
  {
  }

  /** The normalized box, stretched to a w x h canvas. */
  function ScaleBox(b: Box, w: nat, h: nat): Box {
    Box(b.x * w as real, b.y * h as real, b.w * w as real, b.h * h as real)
  }

  /** Every box-shaped record holds exactly the difference's getBounds box
      stretched to the canvas, and a circle record holds the stretched centre
      and half the getBounds width stretched by the canvas width alone (the
      height plays no part), positive whenever the radius and the width
      are. */
  lemma ProjectMatchesBounds(c: DiffConfig, w: nat, h: nat)
    ensures !c.shape.Circle? ==> Project(c, w, h) == PixelBox(
      ScaleBox(GetBounds(c), w, h).x, ScaleBox(GetBounds(c), w, h).y,
      ScaleBox(GetBounds(c), w, h).w, ScaleBox(GetBounds(c), w, h).h)
    ensures c.shape.Circle? ==> (
      && Project(c, w, h).PixelCircle?
      && Project(c, w, h).cx == c.x * w as real && Project(c, w, h).cy == c.y * h as real
      && Project(c, w, h).radius == GetBounds(c).w / 2.0 * w as real
      && (c.shape.r > 0.0 && w > 0 ==> Project(c, w, h).radius > 0.0))
  {
    var W, H := w as real, h as real;
    match c.shape
    case Circle(r) =>
    case Ellipse(ew, eh) =>
      assert (c.x - ew) * W == c.x * W - ew * W;
      assert (c.y - eh) * H == c.y * H - eh * H;
      assert (ew * 2.0) * W == (ew * W) * 2.0;
      assert (eh * 2.0) * H == (eh * H) * 2.0;
    case Rect(rw, rh) =>
    case Triangle(tw, th) =>
  }

  /** A point the canvas paints for the difference, in pixels: the disc of
      radius r * w around the stretched centre, or for the other shapes a
      point whose normalized position the shape covers. */
  predicate Painted(c: DiffConfig, w: nat, h: nat, px: real, py: real) {
    match c.shape
    case Circle(r) =>
      var dx, dy, R := px - c.x * w as real, py - c.y * h as real, r * w as real;
      dx * dx + dy * dy <= R * R
    case _ => w > 0 && h > 0 && Covers(c, px / w as real, py / h as real)
  }

  /** The painted point lies inside the box-shaped record. */
  predicate InPixelBox(p: PixelShape, px: real, py: real)
    requires p.PixelBox?
  {
    p.rx <= px <= p.rx + p.rw && p.ry <= py <= p.ry + p.rh
  }

  lemma ScaleLower(a: real, u: real, W: real)
    requires W > 0.0 && a <= u / W
    ensures a * W <= u
  {
    var q := u / W;
    assert q * W == u;
    assert a * W <= q * W;
  }

  lemma ScaleUpper(a: real, u: real, W: real)
    requires W > 0.0 && u / W <= a
    ensures u <= a * W
  {
    var q := u / W;
    assert q * W == u;
    assert q * W <= a * W;
  }

  /** A normalized point inside a box, stretched to the canvas, lies inside
      the stretched box. */
  lemma {:induction false} StretchInBox(b: Box, w: nat, h: nat, px: real, py: real)
    requires w > 0 && h > 0 && InBox(b, px / w as real, py / h as real)
    ensures var s := ScaleBox(b, w, h); InPixelBox(PixelBox(s.x, s.y, s.w, s.h), px, py)
  {
    var W, H := w as real, h as real;
    ScaleLower(b.x, px, W);
    ScaleUpper(b.x + b.w, px, W);
    ScaleLower(b.y, py, H);
    ScaleUpper(b.y + b.h, py, H);
    assert (b.x + b.w) * W == b.x * W + b.w * W;
    assert (b.y + b.h) * H == b.y * H + b.h * H;
  }

  /** Every pixel the canvas paints for a non-circular difference lies in its
      record's box. */
  lemma {:induction false} PaintedInsideRecord(c: DiffConfig, w: nat, h: nat, px: real, py: real)
    requires ShapeValid(c.shape) && !c.shape.Circle? && Painted(c, w, h, px, py)
    ensures Project(c, w, h).PixelBox? && InPixelBox(Project(c, w, h), px, py)
  {
    CoversInsideBounds(c, px / w as real, py / h as real);
    ProjectMatchesBounds(c, w, h);
    StretchInBox(GetBounds(c), w, h, px, py);
  }

  /** A pixel coordinate within D <= r * S of the stretched centre x * S
      is within r of x once divided by S. */
  lemma AxisBound(x: real, r: real, S: real, p: real, D: real)
    requires S > 0.0 && D <= r * S && -D <= p - x * S <= D
    ensures x - r <= p / S <= x + r
  {
    var u := p / S;
    assert u * S == p;
    assert (u - x) * S == p - x * S;
    CancelPositive(-r, u - x, S);
    CancelPositive(u - x, r, S);
  }

  /** A pixel of the disc of radius r * W around (x * W, y * H), with
      W <= H, lies within r of (x, y) on each axis once normalized. */
  lemma {:induction false} DiscStretched(x: real, y: real, r: real, W: real, H: real, px: real, py: real)
    requires r > 0.0 && 0.0 < W <= H
    requires (px - x * W) * (px - x * W) + (py - y * H) * (py - y * H) <= (r * W) * (r * W)
    ensures x - r <= px / W <= x + r && y - r <= py / H <= y + r
  {
    var X, Y, R := px - x * W, py - y * H, r * W;
    DiscInside(X, Y, R);
    AxisBound(x, r, W, px, R);
    assert R <= r * H;
    AxisBound(y, r, H, py, R);
  }

  /** On a canvas no wider than it is tall, every painted pixel, normalized,
      lies in the getBounds box of its difference; for a circle this needs
      w <= h, since its painted radius scales with the width. */
  lemma {:induction false} PaintedInsideBounds(c: DiffConfig, w: nat, h: nat, px: real, py: real)
    requires ShapeValid(c.shape) && 0 < w <= h && Painted(c, w, h, px, py)
    ensures InBox(GetBounds(c), px / w as real, py / h as real)
  {
    var W, H := w as real, h as real;
    match c.shape
    case Circle(r) =>
      DiscStretched(c.x, c.y, r, W, H, px, py);
    case _ =>
      CoversInsideBounds(c, px / W, py / H);
  }

  /** On a canvas no wider than it is tall, two differences painted on a
      common pixel collide, in either order. */
  lemma {:induction false} PaintedOverlapIsDetected(a: DiffConfig, b: DiffConfig, w: nat, h: nat, px: real, py: real)
    requires ShapeValid(a.shape) && ShapeValid(b.shape) && 0 < w <= h
    requires Painted(a, w, h, px, py) && Painted(b, w, h, px, py)
    ensures CollidesWith(a, b) && CollidesWith(b, a)
  {
    PaintedInsideBounds(a, w, h, px, py);
    PaintedInsideBounds(b, w, h, px, py);
  }

  /** On a wider canvas a painted circle reaches outside its getBounds box:
      on 200 x 100 pixels, the circle of radius 0.015 at (0.5, 0.5) paints
      pixel (100, 53), whose normalized height 0.53 is below the box. */
  lemma WideCanvasCircleLeavesBox()
    ensures var c := DiffConfig("", 0.5, 0.5, Circle(0.015), "", 100);
      Painted(c, 200, 100, 100.0, 53.0) && !InBox(GetBounds(c), 100.0 / 200.0, 53.0 / 100.0)
  {
  }

  /** And there the box test can miss a real overlap: on 300 x 100 pixels,
      that circle and a 0.02 x 0.02 rectangle at (0.49, 0.54) both paint
      pixel (150, 54.4), yet neither collides with the other. */
  lemma WideCanvasOverlapMissed()
    ensures var a := DiffConfig("", 0.5, 0.5, Circle(0.015), "", 100);
      var b := DiffConfig("", 0.49, 0.54, Rect(0.02, 0.02), "", 110);
      && Painted(a, 300, 100, 150.0, 54.4) && Painted(b, 300, 100, 150.0, 54.4)
      && !CollidesWith(a, b) && !CollidesWith(b, a)
  {
  }
}
