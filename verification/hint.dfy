// showHint in script.js: when exactly one difference is left, name the cell
// of a 4 x 4 grid over the image that holds its centre.
module Hint {
  import opened Options
  import opened Geometry
  import opened Projection
  import opened Resolver

  /** The point showHint takes as the difference's centre, in normalized
      coordinates: (x, y) for a circle, otherwise (x + w/2, y + h/2) with the
      configuration's own w and h. For an ellipse, whose (x, y) is already
      the centre, this lands half a radius off it. */
  function HintCentre(c: DiffConfig): (real, real) {
    match c.shape
    case Circle(_) => (c.x, c.y)
    case Ellipse(w, h) => (c.x + w / 2.0, c.y + h / 2.0)
    case Rect(w, h) => (c.x + w / 2.0, c.y + h / 2.0)
    case Triangle(w, h) => (c.x + w / 2.0, c.y + h / 2.0)
  }

  /** Math.min(Math.max(v, 0), 3). */
  function Clamp(v: int): (r: int)
    ensures 0 <= r <= 3
    ensures 0 <= v <= 3 ==> r == v
  {
    if v < 0 then 0 else if v > 3 then 3 else v
  }

  /** The grid cell of a point, numbered 1 to 16 row by row from the top
      left: row * 4 + col + 1, with row and column Math.floor(v * 4) clamped
      to 0..3. */
  function GridCell(cx: real, cy: real): (n: int)
    ensures 1 <= n <= 16
  {
    var col := Clamp((cx * 4.0).Floor);
    var row := Clamp((cy * 4.0).Floor);
    row * 4 + col + 1
  }

  /** The column (or row) of a coordinate in [0, 1] is the quarter of the
      image that holds it, edges included. */
  lemma QuarterHolds(v: real)
    requires 0.0 <= v <= 1.0
    ensures var k := Clamp((v * 4.0).Floor); k as real / 4.0 <= v <= (k + 1) as real / 4.0
  {
    var t := (v * 4.0).Floor;
    assert t as real <= v * 4.0 < t as real + 1.0;
    if t > 3 {
      assert t == 4;
    }
  }

  /** A point of the image lies in the cell GridCell names: the cell's
      column is (n - 1) % 4 and its row (n - 1) / 4, each a quarter of the
      image wide. */
  lemma GridCellLocates(cx: real, cy: real)
    requires 0.0 <= cx <= 1.0 && 0.0 <= cy <= 1.0
    ensures var n := GridCell(cx, cy);
      var col, row := (n - 1) % 4, (n - 1) / 4;
      && col as real / 4.0 <= cx <= (col + 1) as real / 4.0
      && row as real / 4.0 <= cy <= (row + 1) as real / 4.0
  {
    QuarterHolds(cx);
    QuarterHolds(cy);
    var col := Clamp((cx * 4.0).Floor);
    var row := Clamp((cy * 4.0).Floor);
    assert GridCell(cx, cy) - 1 == row * 4 + col;
    assert (row * 4 + col) % 4 == col && (row * 4 + col) / 4 == row;
  }

  /** differences.find(d => !d.found), as an index, searching from k. */
  function FirstUnfound(ds: seq<Difference>, k: nat): (r: Option<nat>)
    requires k <= |ds|
    ensures r.Some? ==> k <= r.value < |ds| && !ds[r.value].found
    ensures r.Some? ==> forall j :: k <= j < r.value ==> ds[j].found
    ensures r.None? <==> forall j :: k <= j < |ds| ==> ds[j].found
    decreases |ds| - k
  {
    if k == |ds| then None
    else if !ds[k].found then Some(k)
    else FirstUnfound(ds, k + 1)
  }

  /** The cell showHint announces, or None when it returns without a
      message. */
  function ShowHint(p: Progress): Option<int> {
    if p.total - p.found > 1 then None
    else if p.total - p.found != 1 then None
    else
      match FirstUnfound(p.differences, 0)
      case None => None
      case Some(i) =>
        var centre := HintCentre(p.differences[i].config);
        Some(GridCell(centre.0, centre.1))
  }

  /** A hint is shown exactly when one difference is left by the counters
      and some record is unfound; it names the cell of the first unfound
      record's centre. */
  lemma ShowHintSpec(p: Progress)
    ensures ShowHint(p).Some? <==>
      p.total - p.found == 1 && exists j :: 0 <= j < |p.differences| && !p.differences[j].found
    ensures ShowHint(p).Some? ==> exists i :: (
      && 0 <= i < |p.differences| && !p.differences[i].found
      && (forall j :: 0 <= j < i ==> p.differences[j].found)
      && ShowHint(p).value == GridCell(HintCentre(p.differences[i].config).0, HintCentre(p.differences[i].config).1))
  {
    if p.total - p.found == 1 {
      match FirstUnfound(p.differences, 0)
      case None =>
      case Some(i) =>
    }
  }

  /** Two unfound records leave the count at least two short. */
  lemma TwoUnfound(ds: seq<Difference>, i: nat, j: nat)
    requires i < |ds| && j < |ds| && i != j && !ds[i].found && !ds[j].found
    ensures CountFound(ds) <= |ds| - 2
  {
    var m := MarkFound(ds, i);
    CountFoundMark(ds, i);
    CountFoundAll(m);
    assert !m[j].found;
  }

  /** With the counters consistent and one difference left, the hint names
      the cell of the one and only unfound record. */
  lemma HintNamesTheLastDifference(p: Progress)
    requires Consistent(p) && p.total - p.found == 1
    ensures exists i :: 0 <= i < |p.differences| && !p.differences[i].found
    ensures forall i, j :: 0 <= i < |p.differences| && 0 <= j < |p.differences| && !p.differences[i].found && !p.differences[j].found ==> i == j
    ensures forall i :: 0 <= i < |p.differences| && !p.differences[i].found ==>
      ShowHint(p) == Some(GridCell(HintCentre(p.differences[i].config).0, HintCentre(p.differences[i].config).1))
  {
    CountFoundAll(p.differences);
    forall i, j | 0 <= i < |p.differences| && 0 <= j < |p.differences| && !p.differences[i].found && !p.differences[j].found
      ensures i == j
    {
      if i != j {
        TwoUnfound(p.differences, i, j);
      }
    }
    ShowHintSpec(p);
  }

  /** The centre showHint uses always lies on the normalized shape of a
      well-formed difference: the ellipse's shifted point (a quarter plus a
      quarter of its normalized radii squared) still lies inside it. */
  lemma HintCentreCovered(c: DiffConfig)
    requires ShapeValid(c.shape)
    ensures Covers(c, HintCentre(c).0, HintCentre(c).1)
  {
    match c.shape
    case Circle(r) =>
    case Ellipse(w, h) =>
      assert (w / 2.0) / w == 0.5;
      assert (h / 2.0) / h == 0.5;
    case Rect(w, h) =>
    case Triangle(w, h) =>
  }
}
