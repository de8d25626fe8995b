# SpotTheDiff: a verified model of the game core

SpotTheDiff is a browser spot-the-difference game. The player compares two copies of one beach image. At load time the game generates five differences, one per difficulty tier (IQ 100, 110, 120, 130, 140), and paints them on the right-hand canvas. Clicks on that canvas then play out as follows:

- A click near an unfound difference marks it found.
- A click on the treasure chest is a harmless Easter egg that plays a prank on every tenth click.
- Any other click costs one of five hearts.

A hint names the 4x4 grid cell of the last difference. The play count is kept in local storage and capped at one million.

The model follows the structure of `script.js`:

| module | file | models |
|---|---|---|
| `Geometry` | `geometry.dfy` | `checkCollision` and its `getBounds`: padded bounding boxes and the first-overlap scan. Also the normalized shapes and the proof that the boxes contain them; the painted shapes are in `Projection`, and the boxes are proved safe for them only on canvases no wider than tall. |
| `Generator` | `generator.dfy` | `ZONES`, `rnd` and `generateDiff`. Each tier's if-chain is a catalogue of archetypes, and the random numbers come from an explicit stream read at a cursor. |
| `Planner` | `planner.dfy` | The retry loop of `generateGameContent` as functions: up to 50 draws per tier, each kept or rejected by the collision test. |
| `Projection` | `projection.dfy` | The difference records `applyDifferences` builds: pixel geometry for a canvas of w x h pixels. |
| `Resolver` | `resolver.dfy` | `checkClick` and the game-over guard of `handleClick`, as a pure step function on the game's progress. Also runs of many clicks. |
| `Hint` | `hint.dfy` | `showHint`: the guards, the first unfound record, the centre, and the 4x4 grid number. |
| `PlayCount` | `playcount.dfy` | `updatePlayCount`: the saturating counter. |
| `Engine` | `engine.dfy` | The script's global state as the class `Game`. Its methods (`generateGameContent`, `applyDifferences`, `checkClick`, `handleClick`, `resetGame`, `img.onload`, `updatePlayCount`) update the fields in place with the source's loops. Each method is proved against the functions above. |
| `Options` | `options.dfy` | The `Option` datatype. |

Randomness is a parameter. `Math.random` is a stream `rand: nat -> real` read at a cursor, and the methods of `Game` receive the difference generator as a function `(iq, cursor) -> draw`. The script's own generator is `Planner.Generated(rand)`, and for that instance `Planner.PlanRound(rand, pos)` is exactly what `Game.GenerateGameContent` builds.

Finding the last difference only schedules the completion overlay (script.js:493-494). Later clicks are still resolved: `Resolver.ClickAfterCompletion` proves that such a click, off the chest, still costs a heart.

## Model

| member | source | states |
|---|---|---|
| Geometry.CheckCollision | script.js:176-214 | The scan reports a collision exactly when the padded box of the new difference strictly overlaps the box of some existing difference. An empty list never collides. |
| Geometry.GetBounds | script.js:182-192 | Definition of getBounds; its properties are in Geometry.CoversInsideBounds. |
| Geometry.Pad | script.js:194-200 | Definition of the padding of the new box; its properties are in Geometry.CollidesWithSymmetric. |
| Geometry.BoxesOverlap | script.js:205-208 | Definition of the strict AABB test; its properties are in Geometry.CollidesWithSymmetric and Geometry.OverlapIsDetected. |
| Geometry.CollidesWith | script.js:194-210 | Definition of the test against one existing difference; its properties are in Geometry.CollidesWithSymmetric. |
| Geometry.Collides | script.js:202-213 | Definition of the scan's answer; its properties are in Geometry.CheckCollision and Geometry.CollidesSome. |
| Geometry.Covers | script.js:370-417 | Definition of the normalized shape of a difference; its properties are in Geometry.CoversInsideBounds and Projection.PaintedInsideBounds. |
| Geometry.CollidesSome | script.js:202-212 | A collision with the list is the same as a collision with one of its members. |
| Geometry.CollidesWithSymmetric | script.js:194-210 | Padding the new box by PADDING/2 per side gives the same answer as padding the existing box, so the test is symmetric in the two differences. |
| Geometry.CoversInsideBounds | script.js:182-192 | Every point of a difference's normalized shape lies in the box getBounds returns for it. The shape is a disc of radius r, an ellipse with radii (w, h), a rectangle, or a triangle. |
| Geometry.OverlapIsDetected | script.js:176-214 | Two differences whose normalized shapes share a point collide, in either order. |
| Geometry.NoCollisionMeansDisjoint | script.js:176-214 | A difference the check accepts shares no point of its normalized shape with any existing difference. |
| Generator.Rnd | script.js:172-174 | For a draw in [0, 1), rnd(min, max) lies in [min, max). |
| Generator.Pick | script.js:68-69 | Math.floor(random * n) selects a branch below n. For a draw in [0, 1) it is the floor itself, and an out-of-range value takes the last (else) branch. |
| Generator.Offset | script.js:135 | A column position `yBase + random * ySpan` lies in [yBase, yBase + ySpan) for a draw in [0, 1). |
| Generator.Instantiate | script.js:70-168 | One branch's difference uses at most two position draws; its properties are in Generator.InstantiateFits. |
| Generator.TierOf | script.js:62-170 | Definition of the tag generateDiff gives: 100, 110, 120 or 130 for those tiers, and 140 for every other input (the final else branch); its properties are in Generator.GenerateDiff and Planner.TierTagged. |
| Generator.Catalogue | script.js:66-170 | Every tier offers two or three archetypes; the exact counts (three for 100, 110 and 120, two for 130 and 140) are in Generator.CatalogueSound. |
| Generator.GenerateDiff | script.js:62-170 | The difference carries its tier's iq tag. One call consumes the unused seed draw, the branch draw and at most two position draws. |
| Generator.CatalogueSound | script.js:52-170 | The catalogue has 3 archetypes per tier up to 120 and 2 above. Every archetype has a well-formed shape and a placement range inside its zone. |
| Generator.InstantiateFits | script.js:62-174 | With draws in [0, 1), an instantiated branch keeps its name, shape, colour and tier. Its position lies inside its fixed point, column or zone, and inside the unit square. |
| Generator.GenerateDiffFits | script.js:62-174 | With draws in [0, 1), the generated difference is the catalogue entry that Math.floor(random * n) selects. It has that entry's name, shape and colour, and a position inside the entry's range. |
| Planner.Generated | script.js:62-174 | Definition of generateDiff reading Math.random from the stream; its properties are in Planner.GeneratedSound and Planner.GeneratedFromCatalogue. |
| Planner.PlanRound | script.js:782-811 | Definition of generateGameContent's pass with the script's own generator; its properties are in Planner.PlanRoundSpec, Planner.PlanRoundDrawn, Planner.PlanSeparated and Planner.PlanRoundFromGenerator. |
| Planner.GeneratedSound | script.js:796 | The script's generator always moves the cursor forward, by at most four draws, and tags the tier. |
| Planner.PlaceTier | script.js:792-806 | Definition of one tier's retry loop; its properties are in Planner.PlaceTierBounds, Planner.PlaceTierSpec and Planner.PlaceTierRejects. |
| Planner.Candidate | script.js:795-797 | Definition of the k-th candidate of a tier's consecutive generateDiff calls; used by Planner.PlaceTierSpec. |
| Planner.PlanFrom | script.js:790-807 | Definition of the pass over the tiers; its properties are in Planner.PlanFromLength, Planner.PlanFromShape and Planner.PlanFromSpec. |
| Planner.Round | script.js:786-807 | Definition of generateGameContent's pass from an empty list; its properties are in Planner.PlanRoundSpec and Planner.PlanSeparated. |
| Planner.PlaceTierBounds | script.js:795-801 | The retry loop stops after 1 to 50 attempts and returns the last draw. |
| Planner.PlaceTierSpec | script.js:795-806 | The loop pushes the candidate of its last call, and every earlier candidate collided with the placed differences. The tier is accepted exactly when that last candidate collides with none of them. A rejected tier made all 50 calls. |
| Planner.PlaceTierRejects | script.js:795-806 | A tier is rejected exactly when all 50 consecutive candidates collide with the placed differences. |
| Planner.PlanFromLength | script.js:790-807 | Every tier pushes exactly one difference. |
| Planner.PlanFromShape | script.js:790-807 | The planned list extends the placed list, one difference per tier, in tier order, each tagged with its tier. |
| Planner.PlanFromSpec | script.js:790-807 | Each difference that is kept as valid misses every difference pushed before it. |
| Planner.PlanRoundSpec | script.js:782-811 | A round yields five differences tagged 100 to 140, each after 1 to 50 attempts. A valid one misses all earlier ones; an invalid one took 50 attempts and collides. |
| Planner.PlanRoundDrawn | script.js:795-797 | Each pushed difference is the generator's draw at the cursor its last attempt started from. |
| Planner.SeparatedByPrefix | script.js:795-806 | If each difference misses all earlier ones, no two differences collide. |
| Planner.PlanSeparated | script.js:782-811 | When every tier was accepted, no two of the round's five differences collide. |
| Planner.GeneratedFromCatalogue | script.js:62-174 | With draws in [0, 1), every draw of the script's generator is an entry of its tier's catalogue. |
| Planner.PlanRoundFromGenerator | script.js:782-811 | With draws in [0, 1), the i-th difference of a round comes from the catalogue of tier i. |
| Projection.Project | script.js:370-417 | Definition of the pixel geometry of a record; its properties are in Projection.ProjectMatchesBounds. |
| Projection.Activate | script.js:366-420 | Definition of the record built for one configuration; its properties are in Projection.FreshMatches and Resolver.FreshRecordsConsistent. |
| Projection.Painted | script.js:371-417 | Definition of the pixels the canvas paints: the arc of radius r * w, the ellipse, the rectangle and the triangle; its properties are in Projection.PaintedInsideRecord, Projection.PaintedInsideBounds and Resolver.PaintedPointHits. |
| Projection.ProjectMatchesBounds | script.js:366-418 | Each non-circle record holds the getBounds box of its difference stretched to the canvas (for an ellipse, centre minus radii and twice the radii). A circle record holds the stretched centre and a radius of half the getBounds width times the canvas width, so the height plays no part. The radius is positive when r and the width are. |
| Projection.PaintedInsideRecord | script.js:381-417 | Every pixel painted for an ellipse, rectangle or triangle lies inside the record's box. |
| Projection.PaintedInsideBounds | script.js:370-417 | On a canvas no wider than it is tall, every pixel painted for a difference, once normalized, lies in its getBounds box. |
| Projection.PaintedOverlapIsDetected | script.js:176-214 | On a canvas no wider than it is tall, two differences painted on a common pixel collide, in either order. |
| Projection.WideCanvasCircleLeavesBox | script.js:182-184 | On a 200 x 100 canvas, a circle of radius 0.015 paints a pixel outside its getBounds box. |
| Projection.WideCanvasOverlapMissed | script.js:176-214 | On a 300 x 100 canvas, a painted circle and a painted rectangle share a pixel, yet neither collides with the other. |
| Projection.FreshMatches | script.js:359-421 | Freshly built records match their configurations and are all unfound. |
| Resolver.HitsShape | script.js:463-481 | Definition of the per-record reach test; its properties are in Resolver.CircleTestExact and Resolver.PaintedPointHits. |
| Resolver.ChestHit | script.js:499-505 | Definition of the chest test; its properties are in Resolver.Click and Resolver.ChestCycle. |
| Resolver.MarkFound | script.js:486 | Definition of `hitDiff.found = true`; its properties are in Resolver.CountFoundMark and Resolver.HandleStep. |
| Resolver.WithinDistance | script.js:466-468 | Definition of `Math.sqrt(dx^2 + dy^2) < radius + 40` as a squared test; its properties are in Resolver.CircleTestExact. |
| Resolver.FirstHitFrom | script.js:463-485 | The scan finds the first unfound record within reach of the click, and finds none only when no later record is within reach. |
| Resolver.CountFound | script.js:487-490 | The number of found records is at most the number of records. |
| Resolver.Click | script.js:446-543 | A click finds a difference exactly when some unfound record is within reach, and then marks the first such record found and increments the found count. Otherwise it hits the chest exactly when it lies in the chest region, and the counter wraps to 0 with a prank on the tenth hit. Otherwise it is a mistake, which is game over at five. |
| Resolver.Handle | script.js:423-543 | After five mistakes a click changes nothing and reports nothing; before that it always has an outcome. |
| Resolver.CountFoundMark | script.js:486-487 | Marking an unfound record raises the count of found records by one. |
| Resolver.CountFoundAll | script.js:493 | The count of found records equals the number of records exactly when every record is found. |
| Resolver.CountFoundNone | script.js:367 | A list of unfound records has a found count of zero. |
| Resolver.FreshRecordsConsistent | script.js:359-421 | Freshly built records with a found count of 0 satisfy the game invariant. |
| Resolver.HandleConsistent | script.js:423-543 | Every click preserves the game invariant: the found counter equals the number of found records, total equals the number of records, mistakes stay within 0..5 and the chest counter within 0..9. |
| Resolver.CompletionMeansAllFound | script.js:487-497 | The found count reaches the total exactly when the click found the last unfound record. |
| Resolver.CircleTestExact | script.js:466-468 | `sqrt(dx^2 + dy^2) < radius + 40` is decided exactly by the squared test the model uses. |
| Resolver.PaintedPointHits | script.js:366-485 | Every pixel painted for an unfound difference is within reach of its record. |
| Resolver.Run | script.js:423-543 | A run of clicks reports one outcome per click. |
| Resolver.GameOverFreezes | script.js:428 | Once five mistakes are made, any further run of clicks changes nothing and reports nothing. |
| Resolver.Mistakes | script.js:534 | The number of mistakes in a run is at most its length. |
| Resolver.RunSpec | script.js:423-543 | Over any run the invariant holds. The mistake counter rises by exactly the number of mistakes reported, which never exceeds the hearts left, and found records stay found. |
| Resolver.HandleStep | script.js:486-489 | One click never clears a found flag. A reported find turns exactly the named record from unfound to found and leaves every other record as it was. Any other reaction leaves the records untouched. |
| Resolver.FoundNeverRepeats | script.js:463-491 | Every find in a run is a record unfound at the start, and no record is found twice. |
| Resolver.Pranks | script.js:520-524 | The number of pranks in a run is at most its length. |
| Resolver.ChestStep | script.js:499-531 | A chest click advances the counter by one modulo ten and pranks exactly when it reaches ten. |
| Resolver.ChestRunStep | script.js:499-531 | A run that starts with a chest click is that click's outcome followed by the run from the advanced counter. |
| Resolver.ChestCycle | script.js:499-531 | Over n chest clicks every click reports the chest. The counter ends at (c + n) mod 10, with (c + n) div 10 pranks, and nothing else in the state changes. |
| Resolver.ClickAfterCompletion | script.js:487-543 | After every difference is found, a click off the chest is still a mistake that costs a heart. |
| Hint.Clamp | script.js:297-299 | The clamp lies in 0..3 and leaves 0..3 unchanged. |
| Hint.GridCell | script.js:291-302 | The grid number is between 1 and 16. |
| Hint.GridCellLocates | script.js:291-302 | For a centre in the unit square, the grid number's column (n-1) mod 4 and row (n-1) div 4 give the quarter cell holding the centre, edges included. |
| Hint.FirstUnfound | script.js:279 | `differences.find(d => !d.found)` returns the first unfound record, and nothing only when every record is found. |
| Hint.HintCentre | script.js:282-289 | Definition of the hint's centre point; its properties are in Hint.HintCentreCovered. |
| Hint.ShowHint | script.js:269-307 | Definition of showHint's guards and grid number; its properties are in Hint.ShowHintSpec and Hint.HintNamesTheLastDifference. |
| Hint.ShowHintSpec | script.js:269-307 | A hint is shown exactly when total minus found is 1 and an unfound record exists. It then names the grid cell of the first unfound record's centre. |
| Hint.TwoUnfound | script.js:272-275 | With two unfound records the found count is at most the number of records minus two. |
| Hint.HintNamesTheLastDifference | script.js:269-307 | In a consistent game with one difference left, exactly one record is unfound and the hint names its cell. |
| Hint.HintCentreCovered | script.js:282-289 | The centre the hint uses lies on the normalized shape of the difference for every shape, including the ellipse, whose centre plus half its radii is still inside it. |
| PlayCount.NextPlayCount | script.js:770-780 | A missing count becomes 1. A count below one million rises by one, and any other count stays. A count within the cap stays within it. |
| PlayCount.Plays | script.js:770-780 | Definition of the count after k plays; its properties are in PlayCount.PlaysSaturate and PlayCount.FirstPlay. |
| PlayCount.PlaysSaturate | script.js:770-780 | After k plays from a saved count s within the cap, the count is min(s + k, 1000000). A count above the cap never changes. |
| PlayCount.FirstPlay | script.js:770-780 | Starting from no saved count, k + 1 plays give min(k + 1, 1000000). |
| Engine.Game.constructor | script.js:14-22 | The initial state: no configurations or records, every counter 0, total undefined. The game invariant holds. |
| Engine.Game.UpdatePlayCount | script.js:770-780 | The play count becomes NextPlayCount of the stored value, and that value is written back. Nothing else changes. |
| Engine.Game.ApplyDifferences | script.js:359-421 | The record list is rebuilt: one unfound record per configuration, in order, with its index as id and its pixel geometry at the current canvas size. |
| Engine.Game.PlaceTier | script.js:790-806 | The retry loop pushes exactly the difference Planner.PlaceTier chooses and returns the cursor after its draws. |
| Engine.Game.PlaceTiers | script.js:788-807 | The configuration list becomes the five differences of the round, and the cursor ends where the round's draws end. |
| Engine.Game.GenerateGameContent | script.js:782-811 | Updates the play count, makes the configurations the round's differences, sets total to their number (5), and rebuilds fresh records. |
| Engine.Game.CheckClick | script.js:446-543 | The new state and the outcome are exactly those of Resolver.Click on the old state. |
| Engine.Game.HandleClick | script.js:423-444 | The new state and outcome are those of Resolver.Handle, and the game invariant is kept. |
| Engine.Game.ResetGame | script.js:819-847 | All counters return to 0, a new round is generated with fresh records, and the game invariant holds again. |
| Engine.Game.FitCanvasToImage | script.js:222-231 | The canvas takes the image size, and the records are rebuilt at that size. |
| Engine.Game.OnImageLoad | script.js:218-256 | Loading generates a round and sizes the canvas to the image. The records are fresh at the image size, and the game invariant holds. |

## Left out

- Drawing is left out: the canvas painting, success markers, hearts, overlays, shaking, audio, speech and the prank and game-over effects (`drawSuccessMarker`, `play*`, `triggerPrank`, `triggerGameOver`, `initHearts`, `gameComplete`). Only their effect on the game state is modelled.
- The `setTimeout` that schedules `gameComplete` is left out. It changes no game state.
- `localStorage` is a parameter, `stored: Option<int>`, holding the parsed saved value. The written value is returned. A saved string that `parseInt` turns into `NaN` is not modelled.
- In `handleClick`, the `e.target.id` check and the translation from client to canvas coordinates via `getBoundingClientRect` are left out. The model receives the canvas coordinates of a click on the right-hand canvas.
- The audio context resume calls in `handleClick` and `resetGame` are left out.
- Numbers are exact reals, not IEEE doubles. `Math.sqrt` is replaced by an exactly equivalent squared test (`Resolver.CircleTestExact`).
- `Math.random` is an explicit stream of reals. Properties that need draws in [0, 1) say so in their requires (`Generator.UnitStream`).
- The `Game` methods take the difference generator as a function parameter. `Planner.Generated(rand)` is the script's own `generateDiff`, and its properties are proved in `Generator` and `Planner`.
- `WATER_LEFT` is declared but no archetype uses it, as in the script.
- The title and start screens (`goToTitle`), `showVersionInfo`, `showTemporaryMessage` and the unused `mistakes` array are left out.
- The image-load error path is left out: `img.onerror`, and the alert when no image data exists.
- Hint.ShowHint: the hint message is not displayed. The model returns the grid number, or nothing.
- `totalDifferences` starts undefined. The model uses 0 there, so a hint is never shown before the first round either way.
- The click tolerances of 40 and 30 pixels are exact constants. A circle's pixel radius scales with the canvas width only, as in the script.
- Geometry.CoversInsideBounds: speaks of the normalized shape. A circle there is a disc of radius r, which is what the canvas paints only when it is square. On a canvas wider than tall the painted circle is taller than its box (Projection.WideCanvasCircleLeavesBox). Projection.PaintedInsideBounds proves the painted form for canvases no wider than tall.
- Geometry.OverlapIsDetected: holds for normalized shapes, not for painted circles on a canvas wider than tall (Projection.WideCanvasOverlapMissed). Projection.PaintedOverlapIsDetected proves the painted form when the width is at most the height.
- Geometry.NoCollisionMeansDisjoint: disjointness is of the normalized shapes. On a canvas wider than tall, an accepted difference may share painted pixels with a circle (Projection.WideCanvasOverlapMissed).
- The initial canvas size is a parameter of `Game`'s constructor.
- Engine.Game.OnImageLoad requires a state with no difference found and counters in range. That holds when the image loads, which happens once before any click.
