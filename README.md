# Word cloud placement, modelled in Dafny

This project models the layout core of the `word-clouds` library. A
`WordClouds` object holds a list of weighted words, a configuration and a
drawing surface. `start(width, height)` places the words one after another,
in input order, around the centre `(width / 2, height / 2)` of the canvas.
For each word it:

1. measures the word, using its frequency as the font size;
2. walks the spiral steps `j = 0 .. spiralLimit - 1`;
3. tests the candidate box at each step against every box already accepted,
   using a strict axis-aligned overlap test;
4. accepts the first candidate that collides with nothing, or silently
   drops the word when no step is free.

Files:

- `geometry.dfy` (module `Geometry`): points, footprints (`Metric`: width
  and descent below the top-left anchor) and registry entries
  (`Placement`: anchor plus footprint). It also holds the strict overlap
  predicate `Overlaps`, `Fits` (a candidate overlaps no registry entry)
  and `Disjoint` (no two registry entries overlap).
- `placement_engine.dfy` (module `PlacementEngine`): the algorithm as
  functions. It has the spiral offset `Spiral` and its angle `Angle`, the
  candidate box `Candidate` (centre plus offset, with the word's
  footprint) and the first-fit search `FirstFit`. `PlaceWord` handles one
  word and `Layout` handles the whole word list as a left fold. The ghost
  function `Owners` gives the input index of each registry entry. The
  lemmas prove the layout's properties.
- `word_clouds.dfy` (module `WordClouds`): the `WordClouds` class.
  `Start` runs the loop over the words. `PlaceOnSpiral` runs the loop over
  spiral steps for one word and, nested inside it, the loop over the
  registry with its early `break`. Both methods are proved equal to the
  specification functions.

External collaborators are parameters, bundled in the `Host` datatype:

- The canvas text measurement is `measure(text, size)`, a total
  deterministic function. It does not depend on the position the text is
  drawn at. So the metric stored when a word is pushed is the one used in
  its collision check.
- `Math.cos` and `Math.sin` are the functions `cos` and `sin`.

The algorithm is deterministic because `Layout` is a function: equal inputs
and an equal host give an equal registry.

## Model

| member | source | states |
|---|---|---|
| `Geometry.OverlapsSymmetric` | src/word-clouds.ts:73-74 | the collision test gives the same answer whichever of the two boxes is the candidate |
| `Geometry.TouchingBoxesDoNotOverlap` | src/word-clouds.ts:73-74 | boxes that only share an edge or a corner do not collide, because the inequalities are strict |
| `Geometry.SelfOverlap` | src/word-clouds.ts:73-74 | a box collides with an identical box exactly when its width and descent are both positive |
| `Geometry.DisjointAppend` | src/word-clouds.ts:84-95 | pushing a candidate that collides with no entry keeps every pair of registry entries collision-free |
| `PlacementEngine.FirstFit` | src/word-clouds.ts:53-98 | the result is the smallest step in [from, spiralLimit) whose candidate fits; every earlier step collides; None means every step below the limit collides |
| `PlacementEngine.PlaceWord` | src/word-clouds.ts:43-99 | one word leaves the registry unchanged, or appends exactly one entry that fits against all earlier entries and keeps those entries as they were; it preserves pairwise disjointness |
| `PlacementEngine.PlaceWordAt` | src/word-clouds.ts:53-97 | when step j is free and every earlier step collides, the word is pushed as the candidate at step j |
| `PlacementEngine.PlaceWordDropped` | src/word-clouds.ts:53-99 | when every step below the limit collides, the word leaves no entry |
| `PlacementEngine.LayoutNext` | src/word-clouds.ts:43-100 | the registry after word i is the registry before it, extended by handling word i |
| `PlacementEngine.Layout` | src/word-clouds.ts:31-101 | the final registry has at most one entry per word, and no two of its entries collide |
| `PlacementEngine.Owners` | src/word-clouds.ts:43-97 | each entry has exactly one owning input word; owners are valid indices; they strictly increase, so entries keep the input order and no word has two entries |
| `PlacementEngine.LayoutLast` | src/word-clouds.ts:43-97 | handling the last word keeps all earlier entries and owners; a new entry belongs to that word and is its first-fit candidate |
| `PlacementEngine.LayoutPrefix` | src/word-clouds.ts:36-97 | the registry is append-only: after any prefix of the words it is a prefix of the final registry, and each later word adds at most one entry |
| `PlacementEngine.LayoutEntry` | src/word-clouds.ts:53-98 | entry k is the candidate at its word's first free step, tested against exactly the entries made before it; its anchor is centre plus spiral offset at that step |
| `PlacementEngine.DroppedIffEveryStepCollides` | src/word-clouds.ts:53-99 | a word has no entry exactly when every step below spiralLimit collides with an entry made before it |
| `PlacementEngine.NoStepsNothingPlaced` | src/word-clouds.ts:53 | with spiralLimit <= 0 the registry stays empty, whatever the words |
| `PlacementEngine.FirstWordAtStepZero` | src/word-clouds.ts:53-97 | with a positive limit the first word is always placed, as entry 0, at spiral step 0 |
| `PlacementEngine.SecondIdenticalWordMovesOn` | src/word-clouds.ts:53-97 | two words with the same non-degenerate footprint: the first takes step 0, and the second is dropped or takes a later step |
| `PlacementEngine.SingleWordScenario` | src/word-clouds.ts:34-97 | one word on a 400 by 400 canvas with cos 0 = 1 and sin 0 = 0 is placed at (201, 200) |
| `PlacementEngine.SpiralRadius` | src/word-clouds.ts:109-115 | given cos² + sin² = 1, spiral step i lies at distance 1 + resolution * i from the centre |
| `PlacementEngine.SpiralMovesOutwards` | src/word-clouds.ts:109-115 | with a non-negative resolution, a later step is never closer to the centre than an earlier one |
| `WordClouds.WordClouds.constructor` | src/word-clouds.ts:21-29 | the constructor only stores the host, the words and the configuration |
| `WordClouds.WordClouds.Start` | src/word-clouds.ts:31-101 | the returned registry equals `Layout` of the stored words around centre (width / 2, height / 2); it is pairwise collision-free and has at most one entry per word |
| `WordClouds.WordClouds.PlaceOnSpiral` | src/word-clouds.ts:44-99 | the step loop with the nested registry scan and its early exit gives exactly `PlaceWord`: the first free step's candidate is pushed, or nothing |

## Left out

- `measureAndDrawText` (src/word-clouds.ts:125-145) draws on the canvas. Its
  drawing (`fillText`, style, `save`/`restore`) is not modelled; only the
  measurement is kept, as the oracle `Host.measure`.
- Numbers are exact `real`s, not IEEE doubles. Rounding, NaN and infinities
  are not modelled. The checked anchor is `offset + centre` and the pushed
  one is `centre + offset`. Floating-point addition is commutative, so the
  two are equal in the source too.
- `spiralLimit` is an `int`. A fractional limit, which the source would
  round up in effect, is not modelled.
- The trigonometry in `spiral` (src/word-clouds.ts:110-112) is abstracted as
  the `Host.cos` and `Host.sin` oracles. The radius lemmas therefore assume
  the Pythagorean identity for them.
- `trace` and `traceSpiral` (src/word-clouds.ts:147-174) are a debug drawing
  and an animation. They do not affect placement.
- `config.font` is kept in the configuration but never read. The source
  hard-codes the font as `size + "px Arial"`, so a font name has no effect.
- The per-word search of `start` is a separate method, `PlaceOnSpiral`,
  called from the word loop in `Start`. The source inlines it. The loops,
  their order and the early exits are the same.
- vite.config.ts is build configuration and is not part of this model.
