// The zone catalogue and the per-tier difference generator (ZONES,
// generateDiff and rnd in script.js). Math.random() is an injected stream:
// the i-th value it would return is rand(i), and every generator function
// takes the position of the next unread value and returns the next one.
module Generator {
  import opened Geometry

  /** The values Math.random() would return, in call order. */
  type Random = nat -> real

  /** Math.random() keeps to [0, 1). */
  ghost predicate UnitStream(rand: Random) {
    forall i :: 0.0 <= rand(i) < 1.0
  }

  /** A named rectangle of the normalized image plane. */
  datatype Zone = Zone(xMin: real, xMax: real, yMin: real, yMax: real)

  const SKY: Zone := Zone(0.05, 0.95, 0.05, 0.2)
  const WATER_LEFT: Zone := Zone(0.05, 0.25, 0.3, 0.5)
  const WATER_RIGHT: Zone := Zone(0.75, 0.95, 0.3, 0.6)
  const SAND_BOTTOM: Zone := Zone(0.05, 0.95, 0.85, 0.95)
  const TREE_LEFT: Zone := Zone(0.05, 0.25, 0.05, 0.4)

  /** Where an archetype puts its difference: uniformly inside a zone, at a
      fixed anchor, or at a fixed x with y = yBase + Math.random() * ySpan. */
  datatype Placement =
    | InZone(zone: Zone)
    | Anchored(ax: real, ay: real)
    | Column(cx: real, yBase: real, ySpan: real)

  /** One branch of generateDiff: what it returns apart from the position. */
  datatype Archetype = Archetype(name: string, shape: Shape, color: string, placement: Placement)

  /** The tier tag generateDiff puts on its result: 100, 110, 120 and 130
      are their own branches, and every other input takes the 140 branch. */
  function TierOf(iq: int): int {
    if iq == 100 || iq == 110 || iq == 120 || iq == 130 then iq else 140
  }

  /** The branches of generateDiff, tier by tier, in the order of its
      if/else chains (the final `else` is the last entry). */
  function Catalogue(iq: int): (options: seq<Archetype>)
    ensures 2 <= |options| <= 3
  {
    if iq == 100 then [
      Archetype("pebble_large", Circle(0.015), "rgba(139, 69, 19, 0.8)", InZone(SAND_BOTTOM)),
      Archetype("cloud_patch", Ellipse(0.08, 0.04), "rgba(255,255,255,0.4)", InZone(SKY)),
      Archetype("navel_shade_deep", Circle(0.012), "rgba(0, 0, 0, 0.25)", Anchored(0.49, 0.82))]
    else if iq == 110 then [
      Archetype("leaf_extend", Triangle(0.04, 0.06), "rgba(0, 80, 0, 0.35)", InZone(TREE_LEFT)),
      Archetype("pebble_medium", Circle(0.01), "rgba(160, 82, 45, 0.6)", InZone(SAND_BOTTOM)),
      Archetype("sea_shell", Rect(0.02, 0.02), "rgba(255, 228, 181, 0.6)", InZone(SAND_BOTTOM))]
    else if iq == 120 then [
      Archetype("sand_grain", Circle(0.006), "rgba(85, 85, 85, 0.3)", InZone(SAND_BOTTOM)),
      Archetype("water_spot", Ellipse(0.04, 0.01), "rgba(0,0,50,0.1)", InZone(WATER_RIGHT)),
      Archetype("palm_mark", Rect(0.01, 0.03), "rgba(60,30,0,0.3)", Column(0.1, 0.5, 0.2))]
    else if iq == 130 then [
      Archetype("water_glint", Ellipse(0.03, 0.01), "rgba(255, 255, 255, 0.15)", InZone(WATER_RIGHT)),
      Archetype("sky_wisp", Rect(0.05, 0.005), "rgba(255,255,255,0.1)", InZone(SKY))]
    else [
      Archetype("hair_strand", Rect(0.01, 0.04), "rgba(150, 100, 50, 0.3)", Anchored(0.6, 0.15)),
      Archetype("sand_micro_grain", Circle(0.003), "#c2b280", InZone(SAND_BOTTOM))]
  }

  lemma ScaleBelow(u: real, span: real)
    requires 0.0 <= u < 1.0 && span > 0.0
    ensures 0.0 <= u * span < span
  {
  }

  /** rnd(min, max): a value uniformly spread over [min, max). */
  function Rnd(u: real, min: real, max: real): (r: real)
    ensures 0.0 <= u < 1.0 && min < max ==> min <= r < max
  {
    var span := max - min;
    if 0.0 <= u < 1.0 && min < max then ScaleBelow(u, span); u * span + min
    else u * span + min
  }

  /** The palm mark's `yBase + Math.random() * ySpan`: a value in
      [yBase, yBase + ySpan). */
  function Offset(u: real, yBase: real, ySpan: real): (r: real)
    ensures 0.0 <= u < 1.0 && ySpan > 0.0 ==> yBase <= r < yBase + ySpan
  {
    if 0.0 <= u < 1.0 && ySpan > 0.0 then ScaleBelow(u, ySpan); yBase + u * ySpan
    else yBase + u * ySpan
  }

  /** Math.floor(u * n) followed by the branch chain `type === 0`,
      `type === 1`, ..., `else`: an index that is out of range lands on the
      last branch. */
  function Pick(u: real, n: nat): (k: nat)
    requires n > 0
    ensures k < n
    ensures 0.0 <= u < 1.0 ==> k == (u * n as real).Floor
  {
    var t := (u * n as real).Floor;
    if 0 <= t < n then t else n - 1
  }

  /** A generateDiff result together with the position of the next unread
      random value. */
  datatype Draw = Draw(config: DiffConfig, next: nat)

  /** The most random values one generateDiff call reads. */
  const MAX_DRAWS: nat := 4

  /** Build the branch's result, reading x before y as the object literal does. */
  function Instantiate(a: Archetype, iq: int, rand: Random, pos: nat): (d: Draw)
    ensures pos <= d.next <= pos + 2
  {
    match a.placement
    case InZone(z) =>
      var x := Rnd(rand(pos), z.xMin, z.xMax);
      var y := Rnd(rand(pos + 1), z.yMin, z.yMax);
      Draw(DiffConfig(a.name, x, y, a.shape, a.color, iq), pos + 2)
    case Anchored(ax, ay) =>
      Draw(DiffConfig(a.name, ax, ay, a.shape, a.color, iq), pos)
    case Column(cx, yBase, ySpan) =>
      Draw(DiffConfig(a.name, cx, Offset(rand(pos), yBase, ySpan), a.shape, a.color, iq), pos + 1)
  }

  /** generateDiff(iq): one unused draw (`seed`), one draw to choose the
      branch, then the branch's own draws for its position. */
  function GenerateDiff(iq: int, rand: Random, pos: nat): (d: Draw)
    ensures d.config.iq == TierOf(iq)
    ensures pos + 2 <= d.next <= pos + MAX_DRAWS
  {
    var options := Catalogue(iq);
    var k := Pick(rand(pos + 1), |options|);
    Instantiate(options[k], TierOf(iq), rand, pos + 2)
  }

  // ---------------------------------------------------------------------
  // What a generated difference is, stated over the output.

  /** (x, y) is where the placement allows it: inside the zone (lower bounds
      inclusive, upper bounds exclusive), on the anchor, or in the column. */
  predicate Within(p: Placement, x: real, y: real) {
    match p
    case InZone(z) => z.xMin <= x < z.xMax && z.yMin <= y < z.yMax
    case Anchored(ax, ay) => x == ax && y == ay
    case Column(cx, yBase, ySpan) => x == cx && yBase <= y < yBase + ySpan
  }

  /** The difference is an instance of the archetype. */
  predicate Fits(c: DiffConfig, a: Archetype) {
    c.name == a.name && c.shape == a.shape && c.color == a.color && Within(a.placement, c.x, c.y)
  }

  /** A placement whose allowed positions are non-empty and lie in [0, 1)^2. */
  predicate PlacementSound(p: Placement) {
    match p
    case InZone(z) => 0.0 <= z.xMin < z.xMax <= 1.0 && 0.0 <= z.yMin < z.yMax <= 1.0
    case Anchored(ax, ay) => 0.0 <= ax < 1.0 && 0.0 <= ay < 1.0
    case Column(cx, yBase, ySpan) => 0.0 <= cx < 1.0 && 0.0 <= yBase && ySpan > 0.0 && yBase + ySpan <= 1.0
  }

  /** Every branch of every tier has positive sizes and a sound placement;
      the 100, 110 and 120 tiers have three branches, the others two. */
  lemma CatalogueSound(iq: int)
    ensures |Catalogue(iq)| == if TierOf(iq) <= 120 then 3 else 2
    ensures forall k :: 0 <= k < |Catalogue(iq)| ==>
      ShapeValid(Catalogue(iq)[k].shape) && PlacementSound(Catalogue(iq)[k].placement)
  {
  }

  /** With Math.random() in [0, 1), a branch's result fits the branch. */
  lemma {:induction false} InstantiateFits(a: Archetype, iq: int, rand: Random, pos: nat)
    requires UnitStream(rand) && PlacementSound(a.placement)
    ensures var c := Instantiate(a, iq, rand, pos).config;
      Fits(c, a) && c.iq == iq && 0.0 <= c.x < 1.0 && 0.0 <= c.y < 1.0
  {
    var c := Instantiate(a, iq, rand, pos).config;
    match a.placement
    case InZone(z) =>
      assert 0.0 <= rand(pos) < 1.0 && 0.0 <= rand(pos + 1) < 1.0;
      assert z.xMin <= c.x < z.xMax;
      assert z.yMin <= c.y < z.yMax;
    case Anchored(ax, ay) =>
    case Column(cx, yBase, ySpan) =>
      assert 0.0 <= rand(pos) < 1.0;
  }

  /** generateDiff(iq) returns a difference tagged with its tier, made by
      the branch that Math.floor(u * n) selects among the tier's n branches,
      with positive sizes and its position where that branch puts it. */
  lemma {:induction false} GenerateDiffFits(iq: int, rand: Random, pos: nat)
    requires UnitStream(rand)
    ensures var c := GenerateDiff(iq, rand, pos).config;
      var options := Catalogue(iq);
      var k := (rand(pos + 1) * |options| as real).Floor;
      && 0 <= k < |options|
      && Fits(c, options[k])
      && c.iq == TierOf(iq)
      && ShapeValid(c.shape)
      && 0.0 <= c.x < 1.0 && 0.0 <= c.y < 1.0
  {
    var options := Catalogue(iq);
    var u := rand(pos + 1);
    assert 0.0 <= u < 1.0;
    var k := Pick(u, |options|);
    assert k == (u * |options| as real).Floor;
    CatalogueSound(iq);
    assert ShapeValid(options[k].shape) && PlacementSound(options[k].placement);
    InstantiateFits(options[k], TierOf(iq), rand, pos + 2);
    assert GenerateDiff(iq, rand, pos) == Instantiate(options[k], TierOf(iq), rand, pos + 2);
  }
}
