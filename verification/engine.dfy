// The game object of script.js: its global state as the fields of a class,
// and generateGameContent, applyDifferences, checkClick, handleClick,
// resetGame, updatePlayCount and the image load handler as methods that
// update those fields step by step. Each method is proved to leave exactly
// the state the pure definitions of Planner, Projection, Resolver and
// PlayCount describe.
module Engine {
  import opened Options
  import opened Geometry
  import opened Generator
  import opened Planner
  import opened Projection
  import opened Resolver
  import opened PlayCount

  class Game {
    /** The generated configurations of the round (diffConfigs). */
    var diffConfigs: seq<DiffConfig>
    /** The active records the clicks are tested against (differences). */
    var differences: seq<Difference>
    var foundDifferences: int
    var mistakeCount: int
    var chestClickCount: int
    /** totalDifferences; 0 stands for the undefined value it has before the
        first round is generated. */
    var totalDifferences: int
    var playCount: int
    /** The right canvas's size in pixels. */
    var canvasWidth: nat
    var canvasHeight: nat

    /** The counters and records a click reads and writes. */
    function State(): Progress
      reads this
    {
      Progress(differences, foundDifferences, mistakeCount, chestClickCount, totalDifferences)
    }

    /** The counters are consistent and the records are the configurations'
        records at the current canvas size, with the found flags cleared or
        set by clicks. */
    ghost predicate Valid()
      reads this
    {
      && Consistent(State())
      && Matches(differences, diffConfigs, canvasWidth, canvasHeight)
    }

    /** The script's top-level declarations, with the canvas at the size the
        page gives it before the image loads. */
    constructor(width: nat, height: nat)
      ensures State() == Progress([], 0, 0, 0, 0)
      ensures diffConfigs == [] && playCount == 0
      ensures canvasWidth == width && canvasHeight == height
      ensures Valid()
    {
      diffConfigs := [];
      differences := [];
      foundDifferences := 0;
      mistakeCount := 0;
      chestClickCount := 0;
      totalDifferences := 0;
      playCount := 0;
      canvasWidth := width;
      canvasHeight := height;
    }

    /** updatePlayCount: read the stored count, add one below the cap, and
        return what is written back. */
    method UpdatePlayCount(stored: Option<int>) returns (written: int)
      modifies this`playCount
      ensures playCount == NextPlayCount(stored) && written == playCount
    {
      playCount := if stored.Some? then stored.value else 0;
      if playCount < PLAY_COUNT_CAP {
        playCount := playCount + 1;
      }
      written := playCount;
    }

    /** applyDifferences: rebuild the records from the configurations for
        the current canvas size, every one unfound. */
    method ApplyDifferences()
      modifies this`differences
      ensures Fresh(differences, diffConfigs, canvasWidth, canvasHeight)
    {
      differences := [];
      var w, h := canvasWidth, canvasHeight;
      for index := 0 to |diffConfigs|
        invariant |differences| == index
        invariant forall j :: 0 <= j < index ==> differences[j] == Activate(diffConfigs[j], j, w, h)
      {
        var diff := diffConfigs[index];
        var pixels: PixelShape;
        var W, H := w as real, h as real;
        match diff.shape {
          case Circle(r) =>
            pixels := PixelCircle(diff.x * W, diff.y * H, r * W);
            assert pixels == Project(diff, w, h);
          case Ellipse(ew, eh) =>
            var cx, cy, rw, rh := diff.x * W, diff.y * H, ew * W, eh * H;
            pixels := PixelBox(cx - rw, cy - rh, rw * 2.0, rh * 2.0);
            assert pixels == Project(diff, w, h);
          case Rect(rw, rh) =>
            pixels := PixelBox(diff.x * W, diff.y * H, rw * W, rh * H);
            assert pixels == Project(diff, w, h);
          case Triangle(tw, th) =>
            pixels := PixelBox(diff.x * W, diff.y * H, tw * W, th * H);
            assert pixels == Project(diff, w, h);
        }
        assert Difference(diff, false, index, pixels) == Activate(diff, index, w, h);
        differences := differences + [Difference(diff, false, index, pixels)];
      }
    }

    /** One pass of the forEach callback of generateGameContent: call
        generateDiff until a candidate misses every configuration placed so
        far or MAX_RETRIES calls are made, then push the last candidate. */
    method PlaceTier(generateDiff: DiffSource, iq: int, pos: nat) returns (next: nat)
      modifies this`diffConfigs
      ensures var a := Planner.PlaceTier(generateDiff, iq, old(diffConfigs), pos, 0);
        diffConfigs == old(diffConfigs) + [a.diff] && next == a.next
    {
      var placed := diffConfigs;
      ghost var a := Planner.PlaceTier(generateDiff, iq, placed, pos, 0);
      // `let diff;` starts undefined; the loop runs at least once, so this
      // placeholder is always overwritten before it is pushed.
      var diff := DiffConfig("", 0.0, 0.0, Circle(0.0), "", iq);
      var retries := 0;
      var valid := false;
      next := pos;
      while !valid && retries < MAX_RETRIES
        invariant 0 <= retries <= MAX_RETRIES
        invariant retries == 0 ==> !valid
        invariant !valid && retries < MAX_RETRIES ==> Planner.PlaceTier(generateDiff, iq, placed, next, retries) == a
        invariant valid || retries == MAX_RETRIES ==> diff == a.diff && next == a.next
        decreases MAX_RETRIES - retries
      {
        var d := generateDiff(iq, next);
        diff := d.config;
        next := d.next;
        var collision := CheckCollision(diff, placed);
        if !collision {
          valid := true;
        }
        retries := retries + 1;
      }
      diffConfigs := placed + [diff];
    }

    /** The forEach of generateGameContent over the tiers 100, 110, 120,
        130, 140: start from an empty list and run the tier's retry loop for
        each in turn. */
    method PlaceTiers(generateDiff: DiffSource, pos: nat) returns (next: nat)
      modifies this`diffConfigs
      ensures diffConfigs == Round(generateDiff, pos).configs
      ensures next == Round(generateDiff, pos).next
      ensures |diffConfigs| == |TIERS|
    {
      diffConfigs := [];
      next := pos;
      ghost var plan := Round(generateDiff, pos);
      for t := 0 to |TIERS|
        invariant PlanFrom(generateDiff, TIERS[t..], diffConfigs, next).configs == plan.configs
        invariant PlanFrom(generateDiff, TIERS[t..], diffConfigs, next).next == plan.next
      {
        PlanTail(generateDiff, TIERS[t..], diffConfigs, next);
        assert TIERS[t..][1..] == TIERS[t + 1..];
        next := PlaceTier(generateDiff, TIERS[t], next);
      }
      assert TIERS[|TIERS|..] == [];
      PlanFromLength(generateDiff, TIERS, [], pos);
    }

    /** generateGameContent: update the play count, place one difference per
        tier, set totalDifferences and rebuild the records. */
    method GenerateGameContent(stored: Option<int>, generateDiff: DiffSource, pos: nat) returns (next: nat)
      modifies this`playCount, this`diffConfigs, this`totalDifferences, this`differences
      ensures playCount == NextPlayCount(stored)
      ensures diffConfigs == Round(generateDiff, pos).configs
      ensures next == Round(generateDiff, pos).next
      ensures totalDifferences == |diffConfigs| == |TIERS|
      ensures Fresh(differences, diffConfigs, canvasWidth, canvasHeight)
    {
      var _ := UpdatePlayCount(stored);
      next := PlaceTiers(generateDiff, pos);
      totalDifferences := |diffConfigs|;
      ApplyDifferences();
    }

    /** checkClick: find the first unfound record the click hits and mark it
        found; otherwise count a chest click, firing the prank on the tenth;
        otherwise count a mistake. */
    method CheckClick(x: real, y: real) returns (outcome: Outcome)
      modifies this`differences, this`foundDifferences, this`chestClickCount, this`mistakeCount
      ensures Step(State(), outcome) == Click(old(State()), x, y, canvasWidth, canvasHeight)
    {
      var hit := false;
      var hitIndex := 0;
      var i := 0;
      while i < |differences|
        invariant 0 <= i <= |differences|
        invariant FirstHitFrom(differences, x, y, i) == FirstHitFrom(differences, x, y, 0)
        invariant !hit
      {
        var diff := differences[i];
        if diff.found {
          i := i + 1;
          continue;
        }
        match diff.pixels {
          case PixelCircle(cx, cy, radius) =>
            if WithinDistance(x - cx, y - cy, radius + HIT_TOLERANCE_CIRCLE) {
              hit, hitIndex := true, i;
              break;
            }
          case PixelBox(rx, ry, rw, rh) =>
            if x >= rx - HIT_PADDING_RECT && x <= rx + rw + HIT_PADDING_RECT &&
               y >= ry - HIT_PADDING_RECT && y <= ry + rh + HIT_PADDING_RECT {
              hit, hitIndex := true, i;
              break;
            }
        }
        i := i + 1;
      }

      if hit {
        differences := differences[hitIndex := differences[hitIndex].(found := true)];
        foundDifferences := foundDifferences + 1;
        return Found(hitIndex, foundDifferences == totalDifferences);
      }

      if ChestHit(x, y, canvasWidth, canvasHeight) {
        chestClickCount := chestClickCount + 1;
        if chestClickCount >= CHEST_PRANK_THRESHOLD {
          chestClickCount := 0;
          return Chest(true);
        }
        return Chest(false);
      }

      mistakeCount := mistakeCount + 1;
      return Mistake(mistakeCount >= MAX_MISTAKES);
    }

    /** handleClick: ignore the click once the game is over, otherwise
        resolve it; the invariant is kept. */
    method HandleClick(x: real, y: real) returns (outcome: Option<Outcome>)
      requires Valid()
      modifies this`differences, this`foundDifferences, this`chestClickCount, this`mistakeCount
      ensures Reaction(State(), outcome) == Handle(old(State()), x, y, canvasWidth, canvasHeight)
      ensures Valid()
    {
      ghost var before := State();
      HandleConsistent(before, x, y, canvasWidth, canvasHeight);
      if mistakeCount >= MAX_MISTAKES {
        return None;
      }
      var o := CheckClick(x, y);
      outcome := Some(o);
    }

    /** resetGame: clear the counters and generate a new round. */
    method ResetGame(stored: Option<int>, generateDiff: DiffSource, pos: nat) returns (next: nat)
      modifies this`differences, this`foundDifferences, this`chestClickCount, this`mistakeCount,
        this`playCount, this`diffConfigs, this`totalDifferences
      ensures diffConfigs == Round(generateDiff, pos).configs
      ensures next == Round(generateDiff, pos).next
      ensures Fresh(differences, diffConfigs, canvasWidth, canvasHeight)
      ensures foundDifferences == 0 && mistakeCount == 0 && chestClickCount == 0
      ensures totalDifferences == |TIERS|
      ensures playCount == NextPlayCount(stored)
      ensures Valid()
    {
      foundDifferences := 0;
      mistakeCount := 0;
      chestClickCount := 0;
      next := GenerateGameContent(stored, generateDiff, pos);
      FreshRecordsConsistent(differences, diffConfigs, canvasWidth, canvasHeight, 0, 0);
      FreshMatches(differences, diffConfigs, canvasWidth, canvasHeight);
    }

    /** The second half of img.onload: resize the canvas to the image and
        rebuild the records for the new size. */
    method FitCanvasToImage(imageWidth: nat, imageHeight: nat)
      requires foundDifferences == 0 && totalDifferences == |diffConfigs|
      requires 0 <= mistakeCount <= MAX_MISTAKES && 0 <= chestClickCount < CHEST_PRANK_THRESHOLD
      modifies this`differences, this`canvasWidth, this`canvasHeight
      ensures canvasWidth == imageWidth && canvasHeight == imageHeight
      ensures Fresh(differences, diffConfigs, imageWidth, imageHeight)
      ensures Valid()
    {
      canvasWidth := imageWidth;
      canvasHeight := imageHeight;
      ApplyDifferences();
      FreshRecordsConsistent(differences, diffConfigs, canvasWidth, canvasHeight, mistakeCount, chestClickCount);
      FreshMatches(differences, diffConfigs, canvasWidth, canvasHeight);
    }

    /** img.onload: generate the round at the canvas's current size, then
        fit the canvas to the image and rebuild the records for that size. */
    method OnImageLoad(stored: Option<int>, generateDiff: DiffSource, pos: nat, imageWidth: nat, imageHeight: nat) returns (next: nat)
      requires foundDifferences == 0
      requires 0 <= mistakeCount <= MAX_MISTAKES && 0 <= chestClickCount < CHEST_PRANK_THRESHOLD
      modifies this`differences, this`playCount, this`diffConfigs, this`totalDifferences,
        this`canvasWidth, this`canvasHeight
      ensures diffConfigs == Round(generateDiff, pos).configs
      ensures next == Round(generateDiff, pos).next
      ensures canvasWidth == imageWidth && canvasHeight == imageHeight
      ensures Fresh(differences, diffConfigs, imageWidth, imageHeight)
      ensures totalDifferences == |TIERS|
      ensures playCount == NextPlayCount(stored)
      ensures Valid()
    {
      next := GenerateGameContent(stored, generateDiff, pos);
      FitCanvasToImage(imageWidth, imageHeight);
    }
  }
}
