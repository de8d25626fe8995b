// What a click on the right canvas does (checkClick and the guard of
// handleClick in script.js), as a pure state machine over the game's
// counters and difference records. Engine.Game performs the same steps on
// its fields and is proved to follow Click and Handle exactly.
module Resolver {
  import opened Options
  import opened Geometry
  import opened Projection

  /** Pixels added to a circle's radius for the hit test. */
  const HIT_TOLERANCE_CIRCLE: real := 40.0
  /** Pixels added on every side of a box for the hit test. */
  const HIT_PADDING_RECT: real := 30.0
  /** Mistakes that end the game (maxMistakes). */
  const MAX_MISTAKES: int := 5
  /** Chest clicks that fire the prank. */
  const CHEST_PRANK_THRESHOLD: int := 10
  /** The treasure chest, in normalized coordinates. */
  const CHEST_REGION: Box := Box(0.335, 0.46, 0.365, 0.20)

  /** `Math.sqrt(dx*dx + dy*dy) < t`, stated without the square root;
      CircleTestExact shows the two agree on every input. */
  predicate WithinDistance(dx: real, dy: real, t: real) {
    t > 0.0 && dx * dx + dy * dy < t * t
  }

  /** The click (x, y), in canvas pixels, lands on the record's hit area: the
      circle widened by HIT_TOLERANCE_CIRCLE, or the box widened by
      HIT_PADDING_RECT on every side, edges included. */
  predicate HitsShape(p: PixelShape, x: real, y: real) {
    match p
    case PixelCircle(cx, cy, radius) => WithinDistance(x - cx, y - cy, radius + HIT_TOLERANCE_CIRCLE)
    case PixelBox(rx, ry, rw, rh) =>
      && x >= rx - HIT_PADDING_RECT && x <= rx + rw + HIT_PADDING_RECT
      && y >= ry - HIT_PADDING_RECT && y <= ry + rh + HIT_PADDING_RECT
  }

  /** A difference the click can find: not yet found, and hit. */
  predicate Hittable(d: Difference, x: real, y: real) {
    !d.found && HitsShape(d.pixels, x, y)
  }

  predicate AnyHittable(ds: seq<Difference>, x: real, y: real) {
    exists j :: 0 <= j < |ds| && Hittable(ds[j], x, y)
  }

  /** The scan of checkClick from index k: skip found records, stop at the
      first hit. */
  function FirstHitFrom(ds: seq<Difference>, x: real, y: real, k: nat): (r: Option<nat>)
    requires k <= |ds|
    ensures r.Some? ==> k <= r.value < |ds| && Hittable(ds[r.value], x, y)
    ensures r.Some? ==> forall j :: k <= j < r.value ==> !Hittable(ds[j], x, y)
    ensures r.None? <==> forall j :: k <= j < |ds| ==> !Hittable(ds[j], x, y)
    decreases |ds| - k
  {
    if k == |ds| then None
    else if Hittable(ds[k], x, y) then Some(k)
    else FirstHitFrom(ds, x, y, k + 1)
  }

  /** The number of records marked found. */
  function CountFound(ds: seq<Difference>): (n: nat)
    ensures n <= |ds|
  {
    if ds == [] then 0 else (if ds[0].found then 1 else 0) + CountFound(ds[1..])
  }

  /** `hitDiff.found = true`. */
  function MarkFound(ds: seq<Difference>, i: nat): seq<Difference>
    requires i < |ds|
  {
    ds[i := ds[i].(found := true)]
  }

  /** The click is inside the chest region (edges included) once divided by
      the canvas size; a zero-sized canvas makes the ratios infinite or NaN,
      and every comparison fails. */
  predicate ChestHit(x: real, y: real, w: nat, h: nat) {
    && w > 0 && h > 0
    && CHEST_REGION.x <= x / w as real <= CHEST_REGION.x + CHEST_REGION.w
    && CHEST_REGION.y <= y / h as real <= CHEST_REGION.y + CHEST_REGION.h
  }

  /** The global game state a click reads and writes: the active difference
      records, foundDifferences, mistakeCount, chestClickCount and
      totalDifferences. */
  datatype Progress = Progress(differences: seq<Difference>, found: int, mistakes: int, chest: int, total: int)

  /** What a resolved click reports: the difference found (and whether that
      completed the set), a chest click (and whether it fired the prank), or
      a mistake (and whether it ended the game). */
  datatype Outcome =
    | Found(index: nat, complete: bool)
    | Chest(prank: bool)
    | Mistake(gameOver: bool)

  datatype Step = Step(state: Progress, outcome: Outcome)

  /** checkClick(x, y) on a w x h canvas. */
  function Click(p: Progress, x: real, y: real, w: nat, h: nat): (s: Step)
    ensures s.outcome.Found? <==> AnyHittable(p.differences, x, y)
    ensures s.outcome.Chest? <==> !AnyHittable(p.differences, x, y) && ChestHit(x, y, w, h)
    ensures s.outcome.Found? ==>
      var i := s.outcome.index;
      && i < |p.differences| && Hittable(p.differences[i], x, y)
      && (forall j :: 0 <= j < i ==> !Hittable(p.differences[j], x, y))
      && s.state.differences == MarkFound(p.differences, i)
      && s.state == p.(differences := s.state.differences, found := p.found + 1)
      && (s.outcome.complete <==> p.found + 1 == p.total)
    ensures s.outcome.Chest? ==>
      && s.state == p.(chest := s.state.chest)
      && (s.outcome.prank <==> p.chest + 1 >= CHEST_PRANK_THRESHOLD)
      && s.state.chest == (if s.outcome.prank then 0 else p.chest + 1)
    ensures s.outcome.Mistake? ==>
      && s.state == p.(mistakes := p.mistakes + 1)
      && (s.outcome.gameOver <==> p.mistakes + 1 >= MAX_MISTAKES)
  {
    match FirstHitFrom(p.differences, x, y, 0)
    case Some(i) =>
      Step(p.(differences := MarkFound(p.differences, i), found := p.found + 1), Found(i, p.found + 1 == p.total))
    case None =>
      if ChestHit(x, y, w, h) then
        var c := p.chest + 1;
        if c >= CHEST_PRANK_THRESHOLD then Step(p.(chest := 0), Chest(true))
        else Step(p.(chest := c), Chest(false))
      else
        Step(p.(mistakes := p.mistakes + 1), Mistake(p.mistakes + 1 >= MAX_MISTAKES))
  }

  /** A click as handleClick passes it on: nothing at all happens once the
      game is over. */
  datatype Reaction = Reaction(state: Progress, outcome: Option<Outcome>)

  function Handle(p: Progress, x: real, y: real, w: nat, h: nat): (r: Reaction)
    ensures p.mistakes >= MAX_MISTAKES ==> r.state == p && r.outcome.None?
    ensures p.mistakes < MAX_MISTAKES ==> r.outcome.Some?
  {
    if p.mistakes >= MAX_MISTAKES then Reaction(p, None)
    else
      var s := Click(p, x, y, w, h);
      Reaction(s.state, Some(s.outcome))
  }

  // ---------------------------------------------------------------------
  // The invariant the counters keep.

  /** foundDifferences counts the found records, there is one record per
      generated difference with its index as id, the chest counter stays
      below the prank threshold and the mistake counter within the budget. */
  ghost predicate Consistent(p: Progress) {
    && p.total == |p.differences|
    && p.found == CountFound(p.differences)
    && (forall i :: 0 <= i < |p.differences| ==> p.differences[i].id == i)
    && 0 <= p.chest < CHEST_PRANK_THRESHOLD
    && 0 <= p.mistakes <= MAX_MISTAKES
  }

  /** Marking an unfound record found adds exactly one to the count. */
  lemma {:induction false} CountFoundMark(ds: seq<Difference>, i: nat)
    requires i < |ds| && !ds[i].found
    ensures CountFound(MarkFound(ds, i)) == CountFound(ds) + 1
    decreases |ds|
  {
    var m := MarkFound(ds, i);
    assert m[1..] == if i == 0 then ds[1..] else MarkFound(ds[1..], i - 1);
    if i > 0 {
      CountFoundMark(ds[1..], i - 1);
    }
  }

  /** The count reaches the number of records exactly when every record is
      found. */
  lemma {:induction false} CountFoundAll(ds: seq<Difference>)
    ensures CountFound(ds) == |ds| <==> forall j :: 0 <= j < |ds| ==> ds[j].found
    decreases |ds|
  {
    if ds != [] {
      CountFoundAll(ds[1..]);
      if forall j :: 0 <= j < |ds| ==> ds[j].found {
        assert forall j :: 0 <= j < |ds[1..]| ==> ds[1..][j].found by {
          forall j | 0 <= j < |ds[1..]| ensures ds[1..][j].found {
            assert ds[1..][j] == ds[j + 1];
          }
        }
      } else {
        var k :| 0 <= k < |ds| && !ds[k].found;
        if k > 0 {
          assert ds[1..][k - 1] == ds[k];
        }
      }
    }
  }

  /** No record found, no count. */
  lemma {:induction false} CountFoundNone(ds: seq<Difference>)
    requires forall j :: 0 <= j < |ds| ==> !ds[j].found
    ensures CountFound(ds) == 0
    decreases |ds|
  {
    if ds != [] {
      assert forall j :: 0 <= j < |ds[1..]| ==> ds[1..][j] == ds[j + 1];
      CountFoundNone(ds[1..]);
    }
  }

  /** The records applyDifferences builds for totalDifferences
      configurations, with foundDifferences at 0, satisfy the invariant
      whatever the canvas size. */
  lemma FreshRecordsConsistent(ds: seq<Difference>, cs: seq<DiffConfig>, w: nat, h: nat, mistakes: int, chest: int)
    requires Fresh(ds, cs, w, h)
    requires 0 <= mistakes <= MAX_MISTAKES && 0 <= chest < CHEST_PRANK_THRESHOLD
    ensures Consistent(Progress(ds, 0, mistakes, chest, |cs|))
  {
    FreshMatches(ds, cs, w, h);
    CountFoundNone(ds);
  }

  /** A click through handleClick keeps the invariant: the guard is what
      keeps mistakeCount within the budget. */
  lemma HandleConsistent(p: Progress, x: real, y: real, w: nat, h: nat)
    requires Consistent(p)
    ensures Consistent(Handle(p, x, y, w, h).state)
  {
    if p.mistakes < MAX_MISTAKES {
      var s := Click(p, x, y, w, h);
      if s.outcome.Found? {
        CountFoundMark(p.differences, s.outcome.index);
      }
    }
  }

  /** A found difference reports completion exactly when every record is
      now found. */
  lemma CompletionMeansAllFound(p: Progress, x: real, y: real, w: nat, h: nat)
    requires Consistent(p)
    requires Click(p, x, y, w, h).outcome.Found?
    ensures var s := Click(p, x, y, w, h);
      s.outcome.complete <==> forall j :: 0 <= j < |s.state.differences| ==> s.state.differences[j].found
  {
    var s := Click(p, x, y, w, h);
    CountFoundMark(p.differences, s.outcome.index);
    CountFoundAll(s.state.differences);
  }

  /** The circle test as modelled agrees with `Math.sqrt(d2) < t` for the
      true square root s of d2. */
  lemma CircleTestExact(dx: real, dy: real, t: real, s: real)
    requires s >= 0.0 && s * s == dx * dx + dy * dy
    ensures s < t <==> WithinDistance(dx, dy, t)
  {
    if s < t {
      SquareGrows(s, t);
    } else if t > 0.0 {
      var st := s * t;
      assert t * t <= st;
      assert st <= s * s;
    }
  }

  /** Clicking any pixel the canvas paints for an unfound, well-formed
      difference on a canvas of positive size finds that difference or an
      earlier one. */
  lemma {:induction false} PaintedPointHits(d: Difference, w: nat, h: nat, px: real, py: real)
    requires ShapeValid(d.config.shape) && w > 0 && !d.found
    requires d.pixels == Project(d.config, w, h)
    requires Painted(d.config, w, h, px, py)
    ensures Hittable(d, px, py)
  {
    var c := d.config;
    match c.shape
    case Circle(r) =>
      var R := r * w as real;
      var dx, dy := px - c.x * w as real, py - c.y * h as real;
      assert R > 0.0;
      var T := R + HIT_TOLERANCE_CIRCLE;
      assert T * T == R * R + 80.0 * R + 1600.0;
      assert dx * dx + dy * dy <= R * R;
    case _ =>
      PaintedInsideRecord(c, w, h, px, py);
  }

  // ---------------------------------------------------------------------
  // Sequences of clicks.

  datatype Tap = Tap(x: real, y: real)

  /** The state after the taps and what each tap reported. */
  datatype Trace = Trace(state: Progress, outcomes: seq<Option<Outcome>>)

  function Run(p: Progress, taps: seq<Tap>, w: nat, h: nat): (t: Trace)
    ensures |t.outcomes| == |taps|
    decreases |taps|
  {
    if taps == [] then Trace(p, [])
    else
      var r := Handle(p, taps[0].x, taps[0].y, w, h);
      var rest := Run(r.state, taps[1..], w, h);
      Trace(rest.state, [r.outcome] + rest.outcomes)
  }

  /** A run is its first tap followed by the run of the others. */
  lemma RunTail(p: Progress, taps: seq<Tap>, w: nat, h: nat)
    requires taps != []
    ensures var r := Handle(p, taps[0].x, taps[0].y, w, h);
      var rest := Run(r.state, taps[1..], w, h);
      Run(p, taps, w, h) == Trace(rest.state, [r.outcome] + rest.outcomes)
  {
  }

  /** Found flags only go up, and records are never added or removed. */
  ghost predicate KeepsFound(p: Progress, q: Progress) {
    && |q.differences| == |p.differences|
    && forall j :: 0 <= j < |p.differences| && p.differences[j].found ==> q.differences[j].found
  }

  /** Once game over is reached, clicks change nothing and report nothing. */
  lemma {:induction false} GameOverFreezes(p: Progress, taps: seq<Tap>, w: nat, h: nat)
    requires p.mistakes >= MAX_MISTAKES
    ensures Run(p, taps, w, h).state == p
    ensures forall k :: 0 <= k < |taps| ==> Run(p, taps, w, h).outcomes[k].None?
    decreases |taps|
  {
    if taps != [] {
      GameOverFreezes(p, taps[1..], w, h);
    }
  }

  /** The number of taps reported as mistakes. */
  function Mistakes(outs: seq<Option<Outcome>>): (n: nat)
    ensures n <= |outs|
  {
    if outs == [] then 0
    else (if outs[0].Some? && outs[0].value.Mistake? then 1 else 0) + Mistakes(outs[1..])
  }

  /** Over any run, mistakeCount grows by the number of mistakes reported,
      so at most MAX_MISTAKES - mistakeCount taps are mistakes; the invariant
      holds throughout; and found flags are never cleared. */
  lemma {:induction false} RunSpec(p: Progress, taps: seq<Tap>, w: nat, h: nat)
    requires Consistent(p)
    ensures var t := Run(p, taps, w, h);
      && Consistent(t.state)
      && t.state.mistakes == p.mistakes + Mistakes(t.outcomes)
      && Mistakes(t.outcomes) <= MAX_MISTAKES - p.mistakes
      && KeepsFound(p, t.state)
    decreases |taps|
  {
    if taps != [] {
      var r := Handle(p, taps[0].x, taps[0].y, w, h);
      HandleConsistent(p, taps[0].x, taps[0].y, w, h);
      RunSpec(r.state, taps[1..], w, h);
      var t := Run(p, taps, w, h);
      var rest := Run(r.state, taps[1..], w, h);
      assert t.outcomes[1..] == rest.outcomes;
      assert r.state.mistakes == p.mistakes + (if r.outcome.Some? && r.outcome.value.Mistake? then 1 else 0);
    }
  }

  /** One click through handleClick never clears a found flag. A reported
      find turns exactly the named record from unfound to found and leaves
      every other record as it was; any other reaction leaves the records
      untouched. */
  lemma HandleStep(p: Progress, x: real, y: real, w: nat, h: nat)
    ensures var r := Handle(p, x, y, w, h);
      && KeepsFound(p, r.state)
      && (r.outcome.Some? && r.outcome.value.Found? ==>
            var i := r.outcome.value.index;
            && i < |p.differences| && !p.differences[i].found && r.state.differences[i].found
            && forall j :: 0 <= j < |p.differences| && j != i ==> r.state.differences[j] == p.differences[j])
      && (!(r.outcome.Some? && r.outcome.value.Found?) ==> r.state.differences == p.differences)
  {
    if p.mistakes < MAX_MISTAKES {
      var s := Click(p, x, y, w, h);
      assert Handle(p, x, y, w, h) == Reaction(s.state, Some(s.outcome));
    }
  }

  predicate IsFind(o: Option<Outcome>) {
    o.Some? && o.value.Found?
  }

  /** Every find reported names a record of ds that is not yet found. */
  ghost predicate FindsFresh(ds: seq<Difference>, outs: seq<Option<Outcome>>) {
    forall k :: 0 <= k < |outs| && IsFind(outs[k]) ==>
      outs[k].value.index < |ds| && !ds[outs[k].value.index].found
  }

  /** No record is reported found twice. */
  ghost predicate FindsDistinct(outs: seq<Option<Outcome>>) {
    forall k, l :: 0 <= k < l < |outs| && IsFind(outs[k]) && IsFind(outs[l]) ==>
      outs[k].value.index != outs[l].value.index
  }

  /** Over any run, every reported find names a record that was unfound at
      the start, and no record is reported found twice. */
  lemma {:induction false} FoundNeverRepeats(p: Progress, taps: seq<Tap>, w: nat, h: nat)
    ensures FindsFresh(p.differences, Run(p, taps, w, h).outcomes)
    ensures FindsDistinct(Run(p, taps, w, h).outcomes)
    decreases |taps|
  {
    if taps != [] {
      var r := Handle(p, taps[0].x, taps[0].y, w, h);
      FoundNeverRepeats(r.state, taps[1..], w, h);
      var outs := Run(p, taps, w, h).outcomes;
      var rest := Run(r.state, taps[1..], w, h).outcomes;
      assert outs == [r.outcome] + rest;
      HandleStep(p, taps[0].x, taps[0].y, w, h);
      forall k | 0 <= k < |outs| && IsFind(outs[k])
        ensures outs[k].value.index < |p.differences| && !p.differences[outs[k].value.index].found
      {
        if k > 0 {
          assert rest[k - 1] == outs[k];
          var i := outs[k].value.index;
          assert i < |r.state.differences| && !r.state.differences[i].found;
        }
      }
      forall k, l | 0 <= k < l < |outs| && IsFind(outs[k]) && IsFind(outs[l])
        ensures outs[k].value.index != outs[l].value.index
      {
        assert rest[l - 1] == outs[l];
        if k > 0 {
          assert rest[k - 1] == outs[k];
        } else {
          assert r.state.differences[outs[0].value.index].found;
        }
      }
    }
  }

  /** The number of taps that fired the prank. */
  function Pranks(outs: seq<Option<Outcome>>): (n: nat)
    ensures n <= |outs|
  {
    if outs == [] then 0
    else (if outs[0] == Some(Chest(true)) then 1 else 0) + Pranks(outs[1..])
  }

  /** One tap on the chest that hits no difference advances chestClickCount
      modulo 10 and fires the prank exactly when it wraps. */
  lemma ChestStep(p: Progress, x: real, y: real, w: nat, h: nat)
    requires 0 <= p.chest < CHEST_PRANK_THRESHOLD && p.mistakes < MAX_MISTAKES
    requires ChestHit(x, y, w, h) && !AnyHittable(p.differences, x, y)
    ensures var r := Handle(p, x, y, w, h);
      && r.state == p.(chest := (p.chest + 1) % CHEST_PRANK_THRESHOLD)
      && r.outcome == Some(Chest(p.chest + 1 == CHEST_PRANK_THRESHOLD))
  {
  }

  /** One step of the chest counter against the quotient and remainder of
      c + n by the threshold. */
  lemma ChestArithmetic(c: int, n: int)
    requires 0 <= c < CHEST_PRANK_THRESHOLD && n >= 1
    ensures var c' := (c + 1) % CHEST_PRANK_THRESHOLD;
      && (c' + (n - 1)) % CHEST_PRANK_THRESHOLD == (c + n) % CHEST_PRANK_THRESHOLD
      && (c' + (n - 1)) / CHEST_PRANK_THRESHOLD + (if c + 1 == CHEST_PRANK_THRESHOLD then 1 else 0)
           == (c + n) / CHEST_PRANK_THRESHOLD
  {
    if c + 1 == CHEST_PRANK_THRESHOLD {
      assert (c + 1) % CHEST_PRANK_THRESHOLD == 0;
      assert c + n == (n - 1) + CHEST_PRANK_THRESHOLD;
    } else {
      assert (c + 1) % CHEST_PRANK_THRESHOLD == c + 1;
    }
  }

  /** A run that starts with a chest tap is that tap's step followed by
      the run of the other taps from the advanced counter. */
  lemma ChestRunStep(p: Progress, taps: seq<Tap>, w: nat, h: nat)
    requires 0 <= p.chest < CHEST_PRANK_THRESHOLD && p.mistakes < MAX_MISTAKES && taps != []
    requires ChestHit(taps[0].x, taps[0].y, w, h) && !AnyHittable(p.differences, taps[0].x, taps[0].y)
    ensures var rest := Run(p.(chest := (p.chest + 1) % CHEST_PRANK_THRESHOLD), taps[1..], w, h);
      Run(p, taps, w, h) == Trace(rest.state, [Some(Chest(p.chest + 1 == CHEST_PRANK_THRESHOLD))] + rest.outcomes)
  {
    ChestStep(p, taps[0].x, taps[0].y, w, h);
    RunTail(p, taps, w, h);
  }

  /** n taps on the chest that hit no difference leave chestClickCount at
      (c + n) mod 10 and fire the prank (c + n) div 10 times. */
  lemma {:induction false} ChestCycle(p: Progress, taps: seq<Tap>, w: nat, h: nat)
    requires 0 <= p.chest < CHEST_PRANK_THRESHOLD && p.mistakes < MAX_MISTAKES
    requires forall k :: 0 <= k < |taps| ==> ChestHit(taps[k].x, taps[k].y, w, h) && !AnyHittable(p.differences, taps[k].x, taps[k].y)
    ensures var t := Run(p, taps, w, h);
      && t.state == p.(chest := (p.chest + |taps|) % CHEST_PRANK_THRESHOLD)
      && Pranks(t.outcomes) == (p.chest + |taps|) / CHEST_PRANK_THRESHOLD
      && forall k :: 0 <= k < |taps| ==> t.outcomes[k].Some? && t.outcomes[k].value.Chest?
    decreases |taps|
  {
    if taps != [] {
      var q := p.(chest := (p.chest + 1) % CHEST_PRANK_THRESHOLD);
      var more := taps[1..];
      assert forall k :: 0 <= k < |more| ==> more[k] == taps[k + 1];
      ChestRunStep(p, taps, w, h);
      ChestCycle(q, more, w, h);
      ChestArithmetic(p.chest, |taps|);
      var first := Some(Chest(p.chest + 1 == CHEST_PRANK_THRESHOLD));
      var rest := Run(q, more, w, h).outcomes;
      var outs := [first] + rest;
      assert outs[1..] == rest;
      assert Pranks(outs) == (if first == Some(Chest(true)) then 1 else 0) + Pranks(rest);
      forall k | 0 <= k < |taps|
        ensures outs[k].Some? && outs[k].value.Chest?
      {
        if k > 0 {
          assert outs[k] == rest[k - 1];
        }
      }
    }
  }

  /** Finding the last difference does not stop the game: while mistakes
      remain, a later click that hits nothing and misses the chest is still
      counted as a mistake. */
  lemma ClickAfterCompletion(p: Progress, x: real, y: real, w: nat, h: nat)
    requires Consistent(p) && p.found == p.total && p.mistakes < MAX_MISTAKES
    requires !ChestHit(x, y, w, h)
    ensures Handle(p, x, y, w, h).outcome == Some(Mistake(p.mistakes + 1 >= MAX_MISTAKES))
    ensures Handle(p, x, y, w, h).state.mistakes == p.mistakes + 1
  {
    CountFoundAll(p.differences);
  }
}
