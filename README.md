# svg-path-intersections, modelled in Dafny

This project models the core of `svg-path-intersections`. The library finds
the points where two SVG paths cross. It works in three stages, each a module
here:

- **`PathParser`** (`parser.dfy`, using `ArcFlags` in `arcflags.dfy`)
  models `parsePathDataNormalized`. The command runs of a path-data string
  (SVG 1.1, section 8.3) are split into single commands. Arc flags written
  together are separated. Relative commands become absolute through a running
  current point. `H`/`V` become `L`, `S` becomes `C` and `T` becomes `Q`. The
  input is the list of runs, each already cut into a command letter and its
  number tokens. `Number(token)` and `arcToBezier` are parameters.
- **`Sampler`** (`sampler.dfy`, using `Geometry` in `geometry.dfy`) models
  `getPathInfo`, `pointAtT`, `commandBBox`, `getPathDataBBox` and
  `isBBoxIntersect`. Each command becomes its control points, a number of
  splits, a polyline of `splits + 1` samples at `t = k / splits` and a
  control-point box. The segment length `getLength` is a parameter.
- **`Solver`** (`solver.dfy`) models `findCommandIntersections` and the
  segment-pair driver of `findPathDataIntersections`. It covers:
  - the whole-path box reject, then a per-pair box reject;
  - the nested sample-piece loops;
  - the call-wide key table `xy`;
  - the `[0, 1]` filter on both curve parameters;
  - the `stopAtFirst` quit flags;
  - the tagging of every record with both segment indices and control points.

  `intersectLines` and the `toFixed(1)` key are parameters. `intersectLines`
  is assumed only to return nothing when the two pieces' boxes are apart or
  the lines are parallel (`Solver.IntersectContract`).

Every loop of the source is a Dafny method proved equal to a specification
function. The properties below are proved about those functions. Coordinates
are `real`: floating-point rounding is not modelled.

Where the SVG standard and the code differ, the model follows the code:

- A `T` after a `C` reflects the first control point of the `C`
  (`PathParser.PrevControl`). Section 8.3.7 of SVG 1.1 says the current point.
- `Z` does not move the current point back to the subpath start
  (`PathParser.AdvanceSpec`). Relative commands after `Z` are therefore offset
  from the point before it.
- `isLine` compares point objects by identity, so it never holds. Only
  segments with two control points get a single split (`Sampler.SplitsSpec`).
- A piece is mapped to its curve parameter along `y` only when it is less than
  0.01 wide (`Solver.MapT`).
- JavaScript `undefined` and NaN are modelled explicitly:
  - a command right after a `Z` has an undefined start point
    (`Sampler.SegInfo.Undefined`);
  - a box holding such a point, or built from no points, compares false with
    everything (`Geometry.Box.NoBox`).

  So a path with any command after a `Z` gets no whole-path box and has no
  intersections at all (`Sampler.ValuesAfterCloseNoBox`).
- With `stopAtFirst`, the scan of one segment pair stops at the first raw hit.
  The test is `intersections`, an array, which is always truthy. The stop
  happens even when that hit is then dropped as a duplicate or for a parameter
  outside `[0, 1]`.

## Model

| member | source | states |
|---|---|---|
| Geometry.Min | js/svg-path-intersections_standalone.js:345-348 | `Math.min` of a non-empty list is at most every element and is one of them |
| Geometry.Max | js/svg-path-intersections_standalone.js:345-348 | `Math.max` of a non-empty list is at least every element and is one of them |
| Geometry.CommandBBox | js/svg-path-intersections_standalone.js:354-373 | the box holds every control point and each of its four edges is touched by one; an empty list gives the box that overlaps nothing |
| Geometry.IsBBoxIntersect | js/svg-path-intersections_standalone.js:174-188 | defines the edge-inclusive overlap test; only two proper boxes can overlap, so a NaN or empty box overlaps nothing; properties in `BBoxIntersectSymmetric` and `BBoxIntersectIffCommonPoint` |
| Geometry.BBoxIntersectSymmetric | js/svg-path-intersections_standalone.js:174-188 | the overlap test does not depend on argument order |
| Geometry.BBoxIntersectIffCommonPoint | js/svg-path-intersections_standalone.js:174-188 | two proper boxes overlap exactly when some point lies in both, so touching edges count as overlap |
| ArcFlags.DropEmpty | js/svg-path-intersections_standalone.js:802 | `.filter(Boolean)` leaves no empty token and keeps the text |
| ArcFlags.DropEmptyKeepsNonEmpty | js/svg-path-intersections_standalone.js:802 | a list without empty tokens passes the filter unchanged |
| ArcFlags.FlagPieces | js/svg-path-intersections_standalone.js:787-793 | a long token at flag position 3 is cut into 2 one-character flags and the rest, at position 4 into 1 flag and the rest, concatenating back to the token |
| ArcFlags.ArcScanKeepsText | js/svg-path-intersections_standalone.js:779-801 | the position-counting scan loses and adds no character, from any counter value |
| ArcFlags.ArcTokensKeepText | js/svg-path-intersections_standalone.js:775-803 | the tokens after flag splitting concatenate to the tokens before it and none is empty |
| ArcFlags.RunTogetherFlagsExample | js/svg-path-intersections_standalone.js:783-793 | "1110" at position 3 gives "1", "1", "10" and moves the counter to 6 |
| ArcFlags.SplitArcFlags | js/svg-path-intersections_standalone.js:775-803 | the counting loop over the tokens computes exactly the flag-split tokens |
| PathParser.Numbers | js/svg-path-intersections_standalone.js:806 | one number per token |
| PathParser.FirstRunHasPair | js/svg-path-intersections_standalone.js:834-838 | the first run, a moveto, has the pair the offsets are seeded from |
| PathParser.Repeated | js/svg-path-intersections_standalone.js:816-819 | each repeated command has the implicit letter and between 1 and `chunkSize` values |
| PathParser.RepeatedKeepsValues | js/svg-path-intersections_standalone.js:816-819 | the repeated commands hold, in order, exactly the values from the cut on |
| PathParser.RepeatedExact | js/svg-path-intersections_standalone.js:816-819 | on whole tuples each repeated command holds exactly one tuple |
| PathParser.ComChunks | js/svg-path-intersections_standalone.js:809-820 | the first command keeps the run letter, the later ones take `l`/`L` after `m`/`M` and the run letter otherwise, each at most one tuple |
| PathParser.ComChunksKeepValues | js/svg-path-intersections_standalone.js:809-820 | splitting a run loses and adds no value: the commands' values concatenate to the run's values |
| PathParser.ComChunksExact | js/svg-path-intersections_standalone.js:809-820 | a run of whole tuples becomes commands of exactly one tuple |
| PathParser.SplitRepeated | js/svg-path-intersections_standalone.js:808-820 | the slicing loop builds exactly `ComChunks` |
| PathParser.AbsolutizeShifts | js/svg-path-intersections_standalone.js:865-909 | a relative command keeps its length, each x gets `offX` and each y gets `offY` for m/l/t/c/q/s, only the end point moves for `a`, `h`/`v` move along one axis |
| PathParser.EndOfAbsolute | js/svg-path-intersections_standalone.js:865-909 | the end point of a relative command of at least one pair moves by both offsets |
| PathParser.AbsCommandLetter | js/svg-path-intersections_standalone.js:862-864 | a command made absolute keeps its kind and is upper case |
| PathParser.LonghandSpec | js/svg-path-intersections_standalone.js:920-941 | `H`/`V` become `L` with the other coordinate of the current point; `S`/`T` become `C`/`Q` keeping their values after a first control point whose midpoint with the previous control point is the current point; end points are kept; longhands are untouched |
| PathParser.AdvanceSpec | js/svg-path-intersections_standalone.js:972-985 | the new current point is the end of the absolute command, one axis for `h`/`v`, unchanged for `z`; the offsets follow it |
| PathParser.StepSpec | js/svg-path-intersections_standalone.js:848-985 | one conversion pass: offsets end on the new current point, `z` keeps the current point, other commands but `h`/`v` end on it, and only an arc is replaced by something else than itself |
| PathParser.ConvertCommand | js/svg-path-intersections_standalone.js:848-985 | the in-place pass over one command computes exactly `Step` |
| PathParser.ConvertRun | js/svg-path-intersections_standalone.js:847-986 | the inner loop, overwriting each command in place, computes exactly `Group` |
| PathParser.RunReady | js/svg-path-intersections_standalone.js:809-820 | the commands of a well-formed run each hold one tuple of the run's kind |
| PathParser.GroupKeepsPrefix | js/svg-path-intersections_standalone.js:847-986 | the inner loop only appends to the output |
| PathParser.ChunkStepKeepsPrefix | js/svg-path-intersections_standalone.js:823-987 | one run only appends to the output |
| PathParser.NormalizeFromKeepsPrefix | js/svg-path-intersections_standalone.js:754-988 | the main loop only appends to the output |
| PathParser.ChunkStarts | js/svg-path-intersections_standalone.js:834-845 | the first run outputs a first command with one pair, converted or not |
| PathParser.NormalizeStarts | js/svg-path-intersections_standalone.js:754-988 | the main loop's output is never empty and starts with one pair |
| PathParser.Normalize | js/svg-path-intersections_standalone.js:995-996 | the output is never empty and its first command is `M` with one pair |
| PathParser.StepReady | js/svg-path-intersections_standalone.js:848-985 | a converted command and all it pushes have the values the sampler reads |
| PathParser.LonghandReady | js/svg-path-intersections_standalone.js:920-941 | a one-tuple command is ready for sampling after expansion, and before it unless `h`/`v` |
| PathParser.EmitReady | js/svg-path-intersections_standalone.js:948-969 | a ready command pushes only ready commands when `arcToBezier` returns cubics |
| PathParser.GroupReadyOut | js/svg-path-intersections_standalone.js:847-986 | the inner loop outputs only ready commands |
| PathParser.ChunkReadyOut | js/svg-path-intersections_standalone.js:823-987 | one run, converted or not, outputs only ready commands |
| PathParser.NormalizeFromReady | js/svg-path-intersections_standalone.js:754-988 | the main loop outputs only ready commands |
| PathParser.NormalizeReady | js/svg-path-intersections_standalone.js:729-997 | with expansion on, the parser's output is a leading `M` followed by commands the sampler can read |
| PathParser.NormalizeFromUnconverted | js/svg-path-intersections_standalone.js:823-827 | with nothing to convert the main loop outputs the runs cut into commands |
| PathParser.NormalizeUnconverted | js/svg-path-intersections_standalone.js:823-827 | with nothing to convert the output is the runs cut into commands with only the first letter forced to `M` |
| PathParser.AbsoluteLonghandUnconverted | js/svg-path-intersections_standalone.js:747-749 | a path of only `M L C Q Z` has nothing to convert |
| PathParser.LoneRelativeMovetoKeepsRelativeLineto | js/svg-path-intersections_standalone.js:749 | "m 5 5 10 10" is output as `M` then a relative `l`, since the relative test skips the first character |
| PathParser.ParseRun | js/svg-path-intersections_standalone.js:755-987 | one pass of the main loop advances `NormalizeFrom` by one run |
| PathParser.ParseRuns | js/svg-path-intersections_standalone.js:754-988 | the main loop computes `NormalizeFrom` from the first run |
| PathParser.ParsePathDataNormalized | js/svg-path-intersections_standalone.js:729-997 | the parser computes exactly `Normalize` |
| Sampler.PointAtT | js/svg-path-intersections_standalone.js:521-571 | defines the point at `t` by the number of control points (cubic, quadratic, else interpolation); properties in `PointAtTEnds`, `PointAtTInAnyBox` and `PointAtTInBox` |
| Sampler.PointAtTEnds | js/svg-path-intersections_standalone.js:521-571 | the point at `t = 0` is the first control point and at `t = 1` the last |
| Sampler.CubicWeights | js/svg-path-intersections_standalone.js:536-550 | on [0, 1] the cubic Bernstein weights are non-negative and sum to 1 |
| Sampler.QuadraticWeights | js/svg-path-intersections_standalone.js:552-558 | on [0, 1] the quadratic weights are non-negative and sum to 1 |
| Sampler.CubicCoord | js/svg-path-intersections_standalone.js:536-550 | a cubic coordinate lies between the smallest and largest of its control coordinates |
| Sampler.QuadraticCoord | js/svg-path-intersections_standalone.js:552-558 | a quadratic coordinate lies between the smallest and largest of its control coordinates |
| Sampler.LerpCoord | js/svg-path-intersections_standalone.js:526-531 | an interpolated coordinate lies between its two ends |
| Sampler.CubicInBox | js/svg-path-intersections_standalone.js:536-550 | a cubic point lies in any box holding its control points |
| Sampler.QuadraticInBox | js/svg-path-intersections_standalone.js:552-558 | a quadratic point lies in any box holding its control points |
| Sampler.LerpInBox | js/svg-path-intersections_standalone.js:526-531 | an interpolated point lies in any box holding both ends |
| Sampler.PointAtTInAnyBox | js/svg-path-intersections_standalone.js:560-570 | `pointAtT` on [0, 1] stays in any box holding the control points |
| Sampler.PointAtTInBox | js/svg-path-intersections_standalone.js:521-571 | `pointAtT` on [0, 1] stays in the control-point box |
| Sampler.CeilSpec | js/svg-path-intersections_standalone.js:456 | `Math.ceil` is the least integer not below its argument |
| Sampler.Splits | js/svg-path-intersections_standalone.js:455-458 | defines the number of splits; properties in `SplitsSpec` |
| Sampler.SplitsSpec | js/svg-path-intersections_standalone.js:455-458 | two control points give 1 split; a curve gets `ceil(len / sampleDist)` splits when that is above 20 and 24 otherwise |
| Sampler.DotsEnds | js/svg-path-intersections_standalone.js:465-469 | there are `splits + 1` samples, the first on the first control point at `t = 0`, the last on the last at `t = 1` |
| Sampler.DotsParams | js/svg-path-intersections_standalone.js:465-469 | sample `k` has `t = k / splits` in [0, 1], strictly increasing |
| Sampler.DotsInBox | js/svg-path-intersections_standalone.js:463-469 | every sample lies in the segment's box |
| Sampler.SampleDots | js/svg-path-intersections_standalone.js:465-469 | the sampling loop builds exactly `Dots` |
| Sampler.MoveStartIsLatestMove | js/svg-path-intersections_standalone.js:403-434 | the subpath start `M` is the end of the latest moveto before the command |
| Sampler.Info | js/svg-path-intersections_standalone.js:414-469 | defines the record `getPathInfo` builds for one command; properties in `InfoKinds` and `InfoSeg` |
| Sampler.InfoKinds | js/svg-path-intersections_standalone.js:429-453 | a command gets no control points exactly when it is `M`, and an undefined start exactly when it follows a value-less command |
| Sampler.InfoSeg | js/svg-path-intersections_standalone.js:417-469 | a segment starts at the previous end and ends on its own end (`M` for `Z`); 4/3/2 control points for `C`/`Q`/others; a single split exactly for 2 points; samples from the first to the last control point inside a proper box |
| Sampler.SegmentsJoin | js/svg-path-intersections_standalone.js:418-450 | consecutive segments join: each starts where the one before ends |
| Sampler.PathInfo | js/svg-path-intersections_standalone.js:401-474 | defines the segment records of a whole path; properties in `SegmentsJoin`, `GetPathInfo` and `Solver.PathInfoSampled` |
| Sampler.GetPathInfo | js/svg-path-intersections_standalone.js:401-474 | the `forEach` loop, reassigning `M`, builds exactly `PathInfo` |
| Sampler.PathDataBBox | js/svg-path-intersections_standalone.js:313-352 | defines the whole-path box; properties in `GetPathDataBBox`, `ValuesAfterCloseNoBox` and `PushedInPathBox` |
| Sampler.GetPathDataBBox | js/svg-path-intersections_standalone.js:313-352 | the loop collecting `allX`/`allY` gives exactly `PathDataBBox` |
| Sampler.BoxPointsNoneStays | js/svg-path-intersections_standalone.js:317-336 | once an undefined coordinate is collected the box stays undefined |
| Sampler.ValuesAfterCloseNoBox | js/svg-path-intersections_standalone.js:317-349 | a command with values after a value-less one makes the whole-path box overlap nothing |
| Sampler.BoxPointsGrow | js/svg-path-intersections_standalone.js:317-336 | the collected points only grow |
| Sampler.PushedInPathBox | js/svg-path-intersections_standalone.js:330-349 | every point collected for a command lies in the whole-path box |
| Sampler.CptsInPathBox | js/svg-path-intersections_standalone.js:329-336 | the control points of a non-`Z` command lie in the whole-path box |
| Sampler.SegInPathBox | js/svg-path-intersections_standalone.js:436-450 | the control points `getPathInfo` builds for a non-`Z` segment lie in the whole-path box |
| Solver.MapT | js/svg-path-intersections_standalone.js:80-101 | a hit on either end of a piece maps to that end's curve parameter, whichever axis the piece is measured along |
| Solver.PairStep | js/svg-path-intersections_standalone.js:84-112 | one piece pair only adds to the table and adds at most one hit; further properties in `KeyStoredBeforeRangeTest` and `PairStepKeeps` |
| Solver.Scan | js/svg-path-intersections_standalone.js:72-114 | defines the two nested loops over piece pairs in row-major order; properties in `ScanKeeps`, `ScanFromPieces`, `ScanGrows` and `ScanFinds` |
| Solver.FindCommandIntersections | js/svg-path-intersections_standalone.js:68-117 | the nested loops compute exactly the hits and key table of `CommandIntersections` |
| Solver.KeyStoredBeforeRangeTest | js/svg-path-intersections_standalone.js:85-111 | a hit's key enters the table even when the hit is dropped on range, and a known key changes nothing; any hit sets `quit` under `stopAtFirst` |
| Solver.PairStepKeeps | js/svg-path-intersections_standalone.js:85-111 | one piece pair keeps hits in range, keys fresh, distinct and in the table |
| Solver.ScanKeeps | js/svg-path-intersections_standalone.js:72-114 | the nested loops keep the same |
| Solver.CommandIntersectionsSpec | js/svg-path-intersections_standalone.js:68-117 | the table only grows; hits have both parameters in [0, 1], distinct keys that were not in the table before and are now; at most one hit under `stopAtFirst` |
| Solver.ScanFromPieces | js/svg-path-intersections_standalone.js:72-114 | every hit kept by the loops comes from some piece pair |
| Solver.CommandIntersectionsFromPieces | js/svg-path-intersections_standalone.js:84-111 | every hit is the intersector's point for some piece pair, with its parameters interpolated on those pieces |
| Solver.ApartPiecesNoHit | js/svg-path-intersections_standalone.js:128-135 | pieces in boxes that do not overlap give no intersection |
| Solver.ScanApart | js/svg-path-intersections_standalone.js:72-114 | the loops over samples in boxes that do not overlap change nothing |
| Solver.CommandIntersectionsApart | js/svg-path-intersections_standalone.js:68-117 | samples in boxes that do not overlap give no hit and leave the table as it was |
| Solver.ScanGrows | js/svg-path-intersections_standalone.js:72-114 | the nested loops only add to the table and extend the hits |
| Solver.ScanFinds | js/svg-path-intersections_standalone.js:72-114 | without `stopAtFirst` every raw hit from the current pair on leaves its key in the table, and one with a new key and both parameters in [0, 1] is kept |
| Solver.ScanKeepsAbsent | js/svg-path-intersections_standalone.js:72-114 | a key no remaining piece pair hits on stays out of the table |
| Solver.CommandIntersectionsFinds | js/svg-path-intersections_standalone.js:68-117 | without `stopAtFirst`, every raw hit's key is in the table afterwards; a hit with both parameters in [0, 1] whose key was not in the table and is met at no earlier piece pair is returned |
| Solver.CommandIntersectionsKeepsAbsent | js/svg-path-intersections_standalone.js:68-117 | a key that no piece pair hits on is not added to the table |
| Solver.AnnotateHits | js/svg-path-intersections_standalone.js:504-509 | the tagging loop gives exactly `Annotate` |
| Solver.AnnotateSpec | js/svg-path-intersections_standalone.js:504-509 | each record keeps its hit's point, key and parameters and carries the segment indices and control points |
| Solver.BoxedPathNotEmpty | js/svg-path-intersections_standalone.js:317 | a path with a proper box has at least two commands |
| Solver.PathInfoSampled | js/svg-path-intersections_standalone.js:465-469 | every segment of a path has `splits + 1` samples |
| Solver.VisitPair | js/svg-path-intersections_standalone.js:497-510 | one segment pair updates the table, records and `quit` as `SegPair` |
| Solver.Walk | js/svg-path-intersections_standalone.js:479-513 | defines the two driver loops over segment pairs, skipping moveto rows and stopping on `quit`; properties in `WalkKeeps`, `WalkGrows` and `WalkFinds` |
| Solver.WalkPaths | js/svg-path-intersections_standalone.js:479-513 | the driver loops compute exactly `Walk` |
| Solver.FindPathDataIntersections | js/svg-path-intersections_standalone.js:387-515 | the whole search computes exactly `PathIntersections` |
| Solver.SegPairKeeps | js/svg-path-intersections_standalone.js:497-510 | one segment pair keeps the driver invariant: valid records whose keys are in the table, distinct and in segment order; at most one record under `stopAtFirst` |
| Solver.WalkKeeps | js/svg-path-intersections_standalone.js:479-513 | the driver loops keep that invariant |
| Solver.WalkGrows | js/svg-path-intersections_standalone.js:479-513 | the driver loops only add to the call-wide table and extend the records |
| Solver.WalkFinds | js/svg-path-intersections_standalone.js:479-513 | without `stopAtFirst`, a raw hit in a searched segment pair (both drawn, boxes overlapping) leaves its key in the table, and one with both parameters in [0, 1] and a key met nowhere earlier becomes a record tagged with the pair's indices and control points |
| Solver.SegTagsCommand | js/svg-path-intersections_standalone.js:429-460 | a segment with control points is a drawing command with a known start, and its control points are those of `getPathInfo` |
| Solver.PathIntersectionsSpec | js/svg-path-intersections_standalone.js:387-515 | every record tags two drawing commands (never `M`) with their control points and has both parameters in [0, 1]; keys are distinct; records come in `(segment1, segment2)` order; at most one under `stopAtFirst`; none when the path boxes do not overlap |
| Solver.PathIntersectionsFinds | js/svg-path-intersections_standalone.js:387-515 | without `stopAtFirst` and with overlapping path boxes, every raw hit of a searched command pair with both parameters in [0, 1] and a key met at no earlier pair is in the result, tagged with both command indices and control points |
| Solver.SkippedPairFindsNothing | js/svg-path-intersections_standalone.js:497-498 | a segment pair skipped for disjoint boxes would have found nothing |

## Left out

- `arcToBezier` (trigonometry and rounding): a parameter. The readiness lemmas assume only that it returns cubic `C` commands of six values (`PathParser.ArcContract`).
- `getLength` (numeric quadrature): a parameter giving the segment length. The `len` field of a segment record is not kept.
- `intersectLines` internals (the `toFixed(2)` rounding and the 0.1 on-line tolerance): a parameter constrained only by `Solver.IntersectContract`.
- The `toFixed(1)` key formatting: a parameter `key` from a point to a string.
- The regular-expression clean-up of the string, the command regex and `Number()`: the input is the list of runs already cut into tokens, and `Number` is a parameter.
- Floating point, `Infinity` and NaN: coordinates are `real`. An undefined start point is `Sampler.SegInfo.Undefined`, a NaN or empty box is `Geometry.Box.NoBox`, and a division by zero in the parameter mapping is `None` (the range test rejects it in the source).
- PathParser.Normalize: requires well-formed runs. The first is a moveto, every letter is a command letter, and every run holds whole tuples of values, none for `z`. Short runs give `undefined` coordinates in the source, and values after a `z` make its splitting loop run forever.
- PathParser.PrevControl: an `S` or `T` right after `Z` reads `undefined` control values in the source; the model reads 0.
- Sampler.Splits: requires `sampleDist > 0`. In the source a negative `sampleDist` makes `div` at most 0, so a curve gets 24 splits. A `sampleDist` of 0 makes `div` Infinity for a positive length, so a curve gets Infinity splits and the sampling loop (lines 465-469) never ends. The `|| 1` fallback never applies: the conditional before it yields either a `div` above 20 or 24, and a NaN `div` fails `div > 20` and gives 24.
- Solver.FindPathDataIntersections: requires `PathOk`, i.e. ready commands led by a moveto, as the parser produces them. The exported `findPathDataIntersections` (and `findPathIntersections` given arrays, lines 36-37) takes any command arrays. There an unexpanded `H`/`V` has one value, so its end point reads `values[-1]` (line 326), the whole-path box is NaN and the result is empty. A first command other than a moveto is its own previous command (line 418), so its first segment starts on its own end point. Neither case is modelled.
- Solver.AnnotateHits: the source writes `segment1`, `segment2`, `cpts1` and `cpts2` onto the hit objects in place; the model builds new records.
- Solver.FindCommandIntersections: the key table `xy` is an object mutated in place and shared for the whole call; the model passes it in and out as a set.
- The loop variable `i` of `findCommandIntersections` is an implicit global in the source; the model gives it a local scope, which is what the driver's `let i` sees anyway.
- `width` and `height` of the segment box and the `type` field of a segment record are never read and are not modelled.
- `findPathIntersections`, `checkPathIntersection` and the module wrapper with its exports: they only parse both strings and call the search.
