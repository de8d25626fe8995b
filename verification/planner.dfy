// The placement planner of generateGameContent in script.js, as functions:
// the bounded retry loop for one tier and the pass over all five tiers.
// Both are stated for any generator with generateDiff's interface and
// proved for every such generator that advances through the random stream
// and tags its results; PlanRound plugs in GenerateDiff itself.
// Engine.Game.GenerateGameContent runs the same loops imperatively and is
// proved to produce exactly PlanRound's configurations.
module Planner {
  import opened Geometry
  import opened Generator

  /** The tiers, in the order generateGameContent visits them. */
  const TIERS: seq<int> := [100, 110, 120, 130, 140]

  /** generateDiff calls allowed per tier before the fallback. */
  const MAX_RETRIES: nat := 50

  /** generateDiff's interface: the tier and the position of the next
      unread random value in, a difference and the next position out. */
  type DiffSource = (int, nat) -> Draw

  /** generateDiff reading Math.random() from the stream `rand`. */
  function Generated(rand: Random): DiffSource {
    (iq: int, q: nat) => GenerateDiff(iq, rand, q)
  }

  /** A generator that reads at least one and at most MAX_DRAWS random
      values per call and tags each difference with its tier. */
  ghost predicate Sound(gen: DiffSource) {
    forall iq: int, q: nat :: q < gen(iq, q).next <= q + MAX_DRAWS && gen(iq, q).config.iq == TierOf(iq)
  }

  lemma GeneratedSound(rand: Random)
    ensures Sound(Generated(rand))
  {
    forall iq: int, q: nat
      ensures q < Generated(rand)(iq, q).next <= q + MAX_DRAWS
      ensures Generated(rand)(iq, q).config.iq == TierOf(iq)
    {
      var d := GenerateDiff(iq, rand, q);
      assert Generated(rand)(iq, q) == d;
    }
  }

  /** The outcome of one tier's retry loop: the candidate pushed, whether it
      was accepted as non-colliding (`valid`), how many generateDiff calls
      the loop made, the position the last call started reading from, and
      the next unread random value. */
  datatype Attempt = Attempt(diff: DiffConfig, valid: bool, tries: nat, drawnAt: nat, next: nat)

  /** `while (!valid && retries < MAX_RETRIES)`, entered with `retries`
      calls already made and none accepted. */
  function PlaceTier(gen: DiffSource, iq: int, placed: seq<DiffConfig>, pos: nat, retries: nat): Attempt
    requires retries < MAX_RETRIES
    decreases MAX_RETRIES - retries
  {
    var d := gen(iq, pos);
    if !Collides(d.config, placed) then Attempt(d.config, true, retries + 1, pos, d.next)
    else if retries + 1 < MAX_RETRIES then PlaceTier(gen, iq, placed, d.next, retries + 1)
    else Attempt(d.config, false, retries + 1, pos, d.next)
  }

  /** The configurations after the remaining tiers are placed behind
      `placed`, one Attempt per tier, and the next unread random value. */
  datatype Plan = Plan(configs: seq<DiffConfig>, attempts: seq<Attempt>, next: nat)

  function PlanFrom(gen: DiffSource, tiers: seq<int>, placed: seq<DiffConfig>, pos: nat): Plan
    decreases |tiers|
  {
    if tiers == [] then Plan(placed, [], pos)
    else
      var a := PlaceTier(gen, tiers[0], placed, pos, 0);
      var rest := PlanFrom(gen, tiers[1..], placed + [a.diff], a.next);
      Plan(rest.configs, [a] + rest.attempts, rest.next)
  }

  /** generateGameContent's pass over the tiers, starting from an empty
      list with the generator's random values read from `pos` on. */
  function Round(gen: DiffSource, pos: nat): Plan {
    PlanFrom(gen, TIERS, [], pos)
  }

  /** generateGameContent's list of configurations, starting from an empty
      list with Math.random() read from `rand` at `pos`. */
  function PlanRound(rand: Random, pos: nat): Plan {
    Round(Generated(rand), pos)
  }

  // ---------------------------------------------------------------------
  // One tier.

  /** One tier's loop makes between 1 and MAX_RETRIES generateDiff calls,
      each reading at most MAX_DRAWS random values, and pushes the candidate
      of its last call, which carries the tier tag. */
  lemma {:induction false} PlaceTierBounds(gen: DiffSource, iq: int, placed: seq<DiffConfig>, pos: nat, retries: nat)
    requires Sound(gen) && retries < MAX_RETRIES
    ensures var a := PlaceTier(gen, iq, placed, pos, retries);
      && retries < a.tries <= MAX_RETRIES
      && a.diff.iq == TierOf(iq)
      && pos <= a.drawnAt < a.next <= pos + MAX_DRAWS * (a.tries - retries)
      && a.diff == gen(iq, a.drawnAt).config
      && a.next == gen(iq, a.drawnAt).next
    decreases MAX_RETRIES - retries
  {
    var d := gen(iq, pos);
    if Collides(d.config, placed) && retries + 1 < MAX_RETRIES {
      PlaceTierBounds(gen, iq, placed, d.next, retries + 1);
    }
  }

  /** The draw of the k-th of a run of consecutive generateDiff calls for
      one tier, the first of them reading from `pos`. */
  function Candidate(gen: DiffSource, iq: int, pos: nat, k: nat): Draw
    decreases k
  {
    if k == 0 then gen(iq, pos) else Candidate(gen, iq, gen(iq, pos).next, k - 1)
  }

  /** The loop's exit rule: it stops at the first candidate that collides
      with none of the placed differences and pushes it; every candidate
      before it collided. When all MAX_RETRIES calls collide, the last
      candidate is pushed anyway. */
  lemma {:induction false} PlaceTierSpec(gen: DiffSource, iq: int, placed: seq<DiffConfig>, pos: nat, retries: nat)
    requires retries < MAX_RETRIES
    ensures var a := PlaceTier(gen, iq, placed, pos, retries);
      && retries < a.tries <= MAX_RETRIES
      && a.diff == Candidate(gen, iq, pos, a.tries - retries - 1).config
      && (forall k :: 0 <= k < a.tries - retries - 1 ==> Collides(Candidate(gen, iq, pos, k).config, placed))
      && (a.valid <==> !Collides(a.diff, placed))
      && (!a.valid ==> a.tries == MAX_RETRIES)
    decreases MAX_RETRIES - retries
  {
    var d := gen(iq, pos);
    if Collides(d.config, placed) && retries + 1 < MAX_RETRIES {
      PlaceTierSpec(gen, iq, placed, d.next, retries + 1);
      var a := PlaceTier(gen, iq, placed, pos, retries);
      forall k | 0 <= k < a.tries - retries - 1
        ensures Collides(Candidate(gen, iq, pos, k).config, placed)
      {
        if k > 0 {
          assert Candidate(gen, iq, pos, k) == Candidate(gen, iq, d.next, k - 1);
        }
      }
    }
  }

  /** A tier is rejected exactly when every one of the MAX_RETRIES candidates
      collides with the placed differences. */
  lemma PlaceTierRejects(gen: DiffSource, iq: int, placed: seq<DiffConfig>, pos: nat)
    ensures !PlaceTier(gen, iq, placed, pos, 0).valid <==>
      forall k :: 0 <= k < MAX_RETRIES ==> Collides(Candidate(gen, iq, pos, k).config, placed)
  {
    var a := PlaceTier(gen, iq, placed, pos, 0);
    PlaceTierSpec(gen, iq, placed, pos, 0);
    if forall k :: 0 <= k < MAX_RETRIES ==> Collides(Candidate(gen, iq, pos, k).config, placed) {
      assert Collides(Candidate(gen, iq, pos, a.tries - 1).config, placed);
    }
  }

  // ---------------------------------------------------------------------
  // All tiers.

  /** After the first tier, the plan is the plan of the remaining tiers. */
  lemma PlanTail(gen: DiffSource, tiers: seq<int>, placed: seq<DiffConfig>, pos: nat)
    requires tiers != []
    ensures var a := PlaceTier(gen, tiers[0], placed, pos, 0);
      var rest := PlanFrom(gen, tiers[1..], placed + [a.diff], a.next);
      PlanFrom(gen, tiers, placed, pos) == Plan(rest.configs, [a] + rest.attempts, rest.next)
  {
  }

  /** One configuration per tier, whatever the generator. */
  lemma {:induction false} PlanFromLength(gen: DiffSource, tiers: seq<int>, placed: seq<DiffConfig>, pos: nat)
    ensures |PlanFrom(gen, tiers, placed, pos).configs| == |placed| + |tiers|
    decreases |tiers|
  {
    if tiers != [] {
      var a := PlaceTier(gen, tiers[0], placed, pos, 0);
      PlanFromLength(gen, tiers[1..], placed + [a.diff], a.next);
    }
  }

  /** Placing the tiers appends exactly one configuration per tier after
      the ones already placed, in tier order and tagged with its tier,
      records one Attempt per tier, and reads at most
      MAX_DRAWS * MAX_RETRIES random values per tier. */
  lemma {:induction false} PlanFromShape(gen: DiffSource, tiers: seq<int>, placed: seq<DiffConfig>, pos: nat)
    requires Sound(gen)
    ensures var p := PlanFrom(gen, tiers, placed, pos);
      && |p.configs| == |placed| + |tiers|
      && |p.attempts| == |tiers|
      && p.configs[..|placed|] == placed
      && (forall i :: 0 <= i < |tiers| ==> p.configs[|placed| + i].iq == TierOf(tiers[i]))
      && pos <= p.next <= pos + MAX_DRAWS * MAX_RETRIES * |tiers|
    decreases |tiers|
  {
    if tiers != [] {
      var a := PlaceTier(gen, tiers[0], placed, pos, 0);
      PlaceTierBounds(gen, tiers[0], placed, pos, 0);
      PlanFromShape(gen, tiers[1..], placed + [a.diff], a.next);
      var rest := PlanFrom(gen, tiers[1..], placed + [a.diff], a.next);
      assert rest.configs[..|placed|] == (rest.configs[..|placed| + 1])[..|placed|];
      forall i | 0 <= i < |tiers|
        ensures rest.configs[|placed| + i].iq == TierOf(tiers[i])
      {
        if i == 0 {
          assert rest.configs[..|placed| + 1][|placed|] == a.diff;
        } else {
          assert tiers[1..][i - 1] == tiers[i];
          assert |placed + [a.diff]| + (i - 1) == |placed| + i;
        }
      }
    }
  }

  /** The first tier's Attempt is its retry loop run after `placed`, and
      its candidate follows `placed` in the plan. */
  lemma PlanHead(gen: DiffSource, tiers: seq<int>, placed: seq<DiffConfig>, pos: nat)
    requires Sound(gen) && tiers != []
    ensures var p := PlanFrom(gen, tiers, placed, pos);
      && |p.configs| == |placed| + |tiers| && |p.attempts| == |tiers|
      && p.attempts[0] == PlaceTier(gen, tiers[0], placed, pos, 0)
      && p.configs[..|placed|] == placed
      && p.configs[|placed|] == p.attempts[0].diff
  {
    PlanFromShape(gen, tiers, placed, pos);
    var a := PlaceTier(gen, tiers[0], placed, pos, 0);
    var rest := PlanFrom(gen, tiers[1..], placed + [a.diff], a.next);
    PlanFromShape(gen, tiers[1..], placed + [a.diff], a.next);
    assert rest.configs[..|placed| + 1][|placed|] == a.diff;
  }

  /** The i-th tier's configuration, at index base + i, is its Attempt's
      candidate, drawn by a generateDiff call for that tier and tagged with
      it; the loop made 1 to MAX_RETRIES calls; if accepted the candidate
      collides with no earlier configuration, and if not, all MAX_RETRIES
      calls were spent and it collides. */
  ghost predicate Accepted(gen: DiffSource, p: Plan, base: nat, i: nat, iq: int)
    requires base + i < |p.configs| && i < |p.attempts|
  {
    var a := p.attempts[i];
    var c := p.configs[base + i];
    && c == a.diff
    && c == gen(iq, a.drawnAt).config
    && c.iq == TierOf(iq)
    && 1 <= a.tries <= MAX_RETRIES
    && (a.valid ==> !Collides(c, p.configs[..base + i]))
    && (!a.valid ==> a.tries == MAX_RETRIES && Collides(c, p.configs[..base + i]))
  }

  lemma FirstAccepted(gen: DiffSource, tiers: seq<int>, placed: seq<DiffConfig>, pos: nat)
    requires Sound(gen) && tiers != []
    ensures var p := PlanFrom(gen, tiers, placed, pos);
      |p.configs| == |placed| + |tiers| && |p.attempts| == |tiers| && Accepted(gen, p, |placed|, 0, tiers[0])
  {
    PlanHead(gen, tiers, placed, pos);
    PlaceTierBounds(gen, tiers[0], placed, pos, 0);
    PlaceTierSpec(gen, tiers[0], placed, pos, 0);
  }

  lemma LaterAccepted(gen: DiffSource, tiers: seq<int>, placed: seq<DiffConfig>, pos: nat, i: nat)
    requires 1 <= i < |tiers|
    requires var a := PlaceTier(gen, tiers[0], placed, pos, 0);
      var rest := PlanFrom(gen, tiers[1..], placed + [a.diff], a.next);
      |rest.configs| == |placed| + |tiers| && |rest.attempts| == |tiers| - 1 &&
      Accepted(gen, rest, |placed| + 1, i - 1, tiers[1..][i - 1])
    ensures var p := PlanFrom(gen, tiers, placed, pos);
      |p.configs| == |placed| + |tiers| && |p.attempts| == |tiers| && Accepted(gen, p, |placed|, i, tiers[i])
  {
    var a := PlaceTier(gen, tiers[0], placed, pos, 0);
    var rest := PlanFrom(gen, tiers[1..], placed + [a.diff], a.next);
    var p := PlanFrom(gen, tiers, placed, pos);
    assert p.configs == rest.configs;
    assert p.attempts[i] == rest.attempts[i - 1];
    assert tiers[1..][i - 1] == tiers[i];
  }

  /** Each tier's configuration is the candidate of its tier's Attempt and
      obeys the acceptance rule of PlaceTierSpec against everything placed
      before it. */
  lemma {:induction false} PlanFromSpec(gen: DiffSource, tiers: seq<int>, placed: seq<DiffConfig>, pos: nat)
    requires Sound(gen)
    ensures var p := PlanFrom(gen, tiers, placed, pos);
      && |p.configs| == |placed| + |tiers|
      && |p.attempts| == |tiers|
      && forall i :: 0 <= i < |tiers| ==> Accepted(gen, p, |placed|, i, tiers[i])
    decreases |tiers|
  {
    PlanFromShape(gen, tiers, placed, pos);
    if tiers != [] {
      var p := PlanFrom(gen, tiers, placed, pos);
      FirstAccepted(gen, tiers, placed, pos);
      var a := PlaceTier(gen, tiers[0], placed, pos, 0);
      PlanFromSpec(gen, tiers[1..], placed + [a.diff], a.next);
      forall i | 1 <= i < |tiers|
        ensures Accepted(gen, p, |placed|, i, tiers[i])
      {
        LaterAccepted(gen, tiers, placed, pos, i);
      }
    }
  }

  // ---------------------------------------------------------------------
  // The round generateGameContent builds.

  /** Every tier of TIERS is one generateDiff handles by its own branch. */
  lemma TierTagged(i: nat)
    requires i < |TIERS|
    ensures TierOf(TIERS[i]) == TIERS[i]
  {
  }

  /** generateGameContent pushes one configuration per tier, tagged
      100, 110, 120, 130, 140 in that order, so totalDifferences is 5; at
      most MAX_RETRIES generateDiff calls are made per tier; an accepted
      configuration collides with none before it, and a fallback one was
      pushed after MAX_RETRIES colliding candidates. */
  lemma PlanRoundSpec(rand: Random, pos: nat)
    ensures var p := PlanRound(rand, pos);
      && |p.configs| == |TIERS| == 5
      && |p.attempts| == 5
      && (forall i :: 0 <= i < 5 ==> p.configs[i].iq == TIERS[i])
      && (forall i :: 0 <= i < 5 ==> 1 <= p.attempts[i].tries <= MAX_RETRIES)
      && (forall i :: 0 <= i < 5 && p.attempts[i].valid ==> !Collides(p.configs[i], p.configs[..i]))
      && (forall i :: 0 <= i < 5 && !p.attempts[i].valid ==>
            p.attempts[i].tries == MAX_RETRIES && Collides(p.configs[i], p.configs[..i]))
      && pos <= p.next <= pos + MAX_DRAWS * MAX_RETRIES * 5
  {
    var gen := Generated(rand);
    GeneratedSound(rand);
    PlanFromShape(gen, TIERS, [], pos);
    PlanFromSpec(gen, TIERS, [], pos);
    var p := PlanRound(rand, pos);
    forall i | 0 <= i < 5
      ensures p.configs[i].iq == TIERS[i]
      ensures 1 <= p.attempts[i].tries <= MAX_RETRIES
      ensures p.attempts[i].valid ==> !Collides(p.configs[i], p.configs[..i])
      ensures !p.attempts[i].valid ==> p.attempts[i].tries == MAX_RETRIES && Collides(p.configs[i], p.configs[..i])
    {
      assert Accepted(gen, p, 0, i, TIERS[i]);
      TierTagged(i);
    }
  }

  /** Each configuration of the round, accepted or fallback, is the result
      of the generateDiff call for its tier recorded in its Attempt. */
  lemma PlanRoundDrawn(rand: Random, pos: nat, i: nat)
    requires i < 5
    ensures var p := PlanRound(rand, pos);
      |p.configs| == 5 && |p.attempts| == 5 &&
      p.configs[i] == GenerateDiff(TIERS[i], rand, p.attempts[i].drawnAt).config
  {
    var gen := Generated(rand);
    GeneratedSound(rand);
    PlanFromSpec(gen, TIERS, [], pos);
    var p := PlanRound(rand, pos);
    assert Accepted(gen, p, 0, i, TIERS[i]);
    assert gen(TIERS[i], p.attempts[i].drawnAt) == GenerateDiff(TIERS[i], rand, p.attempts[i].drawnAt);
  }

  /** No configuration collides with any other in the list. */
  ghost predicate Separated(cs: seq<DiffConfig>) {
    forall i, j :: 0 <= i < |cs| && 0 <= j < |cs| && i != j ==> !CollidesWith(cs[i], cs[j])
  }

  /** A list built so that each entry collides with none before it is
      separated both ways, since the padded test is symmetric. */
  lemma SeparatedByPrefix(cs: seq<DiffConfig>)
    requires forall i :: 0 <= i < |cs| ==> !Collides(cs[i], cs[..i])
    ensures Separated(cs)
  {
    forall i, j | 0 <= i < |cs| && 0 <= j < |cs| && i != j
      ensures !CollidesWith(cs[i], cs[j])
    {
      if i > j {
        CollidesSome(cs[i], cs[..i]);
        assert cs[..i][j] == cs[j];
      } else {
        CollidesSome(cs[j], cs[..j]);
        assert cs[..j][i] == cs[i];
        CollidesWithSymmetric(cs[i], cs[j]);
      }
    }
  }

  /** When no tier fell back, no two of the round's differences collide,
      whichever of the two is padded. */
  lemma PlanSeparated(rand: Random, pos: nat)
    requires forall i :: 0 <= i < |PlanRound(rand, pos).attempts| ==> PlanRound(rand, pos).attempts[i].valid
    ensures Separated(PlanRound(rand, pos).configs)
  {
    PlanRoundSpec(rand, pos);
    SeparatedByPrefix(PlanRound(rand, pos).configs);
  }

  /** A generateDiff(iq) result is an instance of one of the tier's
      branches, with positive sizes and its position in [0, 1)^2. */
  ghost predicate FromCatalogue(c: DiffConfig, iq: int) {
    && ShapeValid(c.shape)
    && 0.0 <= c.x < 1.0 && 0.0 <= c.y < 1.0
    && exists k :: 0 <= k < |Catalogue(iq)| && Fits(c, Catalogue(iq)[k])
  }

  lemma GeneratedFromCatalogue(iq: int, rand: Random, q: nat)
    requires UnitStream(rand)
    ensures FromCatalogue(GenerateDiff(iq, rand, q).config, iq)
  {
    GenerateDiffFits(iq, rand, q);
    var options := Catalogue(iq);
    var k := (rand(q + 1) * |options| as real).Floor;
    assert 0 <= k < |options| && Fits(GenerateDiff(iq, rand, q).config, options[k]);
  }

  /** Every configuration of a round, fallback or not, is a generateDiff
      result, so (with Math.random() in [0, 1)) it is an instance of a
      branch of its tier with positive sizes and lies in [0, 1)^2. */
  lemma PlanRoundFromGenerator(rand: Random, pos: nat, i: nat)
    requires UnitStream(rand) && i < 5
    ensures |PlanRound(rand, pos).configs| == 5
    ensures FromCatalogue(PlanRound(rand, pos).configs[i], TIERS[i])
  {
    PlanRoundDrawn(rand, pos, i);
    GeneratedFromCatalogue(TIERS[i], rand, PlanRound(rand, pos).attempts[i].drawnAt);
  }
}
