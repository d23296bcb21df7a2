# Ternary spectral mixing page — Dafny model

This project models the computational core of a single-page colour-mixing tool
(`src/main.js`). The page takes three colours. It draws every pairwise mix as a
41-step bar; the user picks a ratio per pair by clicking a step. It also paints a
ternary field: an inverted triangle whose vertices are the three colours, where
each point is coloured by mixing the colours in proportion to its barycentric
weights. Hovering over the field reports the three shares as whole percentages
that add up to 100.

The spectral mixer is opaque here. In its place the model records each
(colour, weight) argument list the code hands it. Colours are a type parameter
`C`, and coordinates and weights are exact reals.

Modules:

- `Numeric`: `Math.round`, `Math.max`/`Math.min` and sums.
- `Geometry`: the canvas triangle A = (0, 0), B = (W, 0), C = (W/2, H). Also the
  weight formulas with `w3 = 1 - w1 - w2`, the inside test with tolerance 0.001,
  and the clamping of negative weights. `PointOf` (w1 A + w2 B + w3 C) is a
  reference definition, proved inverse to the weight formulas in both directions.
- `Mixing`: the `map`/`filter` that pairs colour i with weight i and drops the
  non-positive weights.
- `PatchGrid`: the patch step `max(1, floor(W / 250))` and the nested loops' grid
  of clipped patches. It is proved to tile the canvas exactly once, in reading order.
- `TernaryField`: the painting loop (`Rasterize`, with its row loop and patch
  body). It is proved equal to a functional field, which is proved to paint
  exactly the grid patches whose centres pass the inside test.
- `Hover`: the hover readout. It normalises the weights, builds the mixer
  arguments and rounds the percentages. The first largest entry absorbs the
  rounding error, never going below 0. At every inside point the three
  percentages are proved to add up to 100.
- `MixBars`: the bar constants, step ratios and step arguments, the marker rule,
  selection, readout labels, and the mutable pair state (`RatioState`: the ratio of
  each pair and the active pair). The click handler is a method of `RatioState`.
- `BarsAndField`: proves that step i of a pair's bar and the hover readout at the
  point i/40 of the way along the edge between that pair's vertices give the mixer
  the same arguments.

## Model

| member | source | states |
|---|---|---|
| Numeric.Round | src/main.js:425 | `Math.round`: the result is within 1/2 of x, lying above x - 1/2 and at most x + 1/2 |
| Geometry.CanvasTriangle | src/main.js:230-234 | the canvas triangle A = (0, 0), B = (W, 0), C = (W/2, H); the hover handler builds the same one at lines 386-390 |
| Geometry.Denom | src/main.js:236-238 | the common denominator of the weight formulas; the hover handler computes it again at lines 391-393 |
| Geometry.CanvasDenom | src/main.js:230-238 | the denominator for the canvas triangle is W * H, positive on every non-empty canvas |
| Geometry.WeightsAt | src/main.js:249-257 | the three weights of any point add up to 1 |
| Geometry.WeightsAtPointOf | src/main.js:249-257 | the weights of w1 A + w2 B + w3 C are (w1, w2, w3) for every weight triple summing to 1 |
| Geometry.PointOfWeightsAt | src/main.js:249-257 | every point is the weighted sum of the vertices by its own weights |
| Geometry.VertexWeights | src/main.js:230-257 | the vertices A, B, C have weights (1,0,0), (0,1,0), (0,0,1) |
| Geometry.CentroidWeights | src/main.js:249-257 | the centroid has weights (1/3, 1/3, 1/3) |
| Geometry.Inside | src/main.js:259 | the inside test: no weight below -0.001 (also line 405) |
| Geometry.ClampNonNegative | src/main.js:263 | `Math.max(value, 0)` on each weight; keeps the number of weights |
| Geometry.ClampNonNegativeSpec | src/main.js:263 | each clamped weight is non-negative and at least the raw weight; non-negative weights are kept and negative ones become 0 |
| Geometry.ClampedSumAtLeast | src/main.js:263-264 | clamping never lowers the total weight |
| Mixing.MixArgs | src/main.js:270-274 | the argument list is no longer than the weights, and every weight in it is positive |
| Mixing.MixArgsExact | src/main.js:270-274 | the list has one entry per positive weight, and colour i with its weight sits after the positive-weight colours before it |
| Mixing.MixArgsWeightSum | src/main.js:270-274 | for non-negative weights, the weights handed to the mixer add up to the total weight |
| Mixing.MixArgsNonEmpty | src/main.js:264-276 | a positive total always hands the mixer at least one colour |
| Mixing.MixArgsThree | src/main.js:418-420 | for three colours, the list is colour 0, 1, then 2, each present exactly when its weight is positive |
| PatchGrid.PatchStep | src/main.js:240 | the step is at least 1; it is floor(W / 250) from W = 250 on, and 1 below W = 500 |
| PatchGrid.Row | src/main.js:244-245 | the inner loop's patches of row y from column x on, clipped at the right edge |
| PatchGrid.GridFrom | src/main.js:242-245 | the rows of patches from row y on, each row clipped at the bottom edge |
| PatchGrid.Grid | src/main.js:240-245 | all patches of the canvas in loop order, with the step of line 240 |
| PatchGrid.RowFacts | src/main.js:244-245 | each patch of a row lies in the canvas, is clipped to min(step, W - x) by min(step, H - y), and the row covers every column once, left to right |
| PatchGrid.GridShape | src/main.js:242-245 | every grid patch lies inside the canvas and is clipped as the loops cut it |
| PatchGrid.GridOrdered | src/main.js:242-244 | grid patches come row by row, left to right within a row |
| PatchGrid.GridCovers | src/main.js:242-245 | every pixel of the rows still to be painted is covered by some grid patch |
| PatchGrid.GridTiles | src/main.js:240-245 | the grid tiles the canvas: every patch is in bounds and clipped, every pixel is covered, and no two patches share a pixel |
| PatchGrid.EmptyCanvasNoPatch | src/main.js:242-244 | a canvas of width 0 or height 0 yields no patch |
| TernaryField.SampleCenter | src/main.js:246-247 | the sample point of a patch: its centre, `x + patchWidth / 2`, `y + patchHeight / 2` |
| TernaryField.PatchAt | src/main.js:246-276 | the loop body for one patch: sample its centre, skip it if outside or of total weight 0, else clamp and build the mixer arguments |
| TernaryField.Field | src/main.js:240-282 | the painted patches of the whole canvas, in loop order; none for an empty canvas |
| TernaryField.BeforeDisjoint | src/main.js:242-245 | two patches in reading order share no pixel |
| TernaryField.PatchAtIffInside | src/main.js:246-276 | a patch is painted if and only if its centre passes the inside test; a painted patch keeps its rectangle and mixes at least one colour, with positive weights summing to at least 1 |
| TernaryField.FieldOfFromCells | src/main.js:242-282 | every painted patch is the painting of one of the cells visited |
| TernaryField.FieldOfComplete | src/main.js:242-282 | every visited cell whose centre is inside is painted |
| TernaryField.FieldOfOrdered | src/main.js:242-282 | painted patches keep the order of the cells they come from |
| TernaryField.FieldSpec | src/main.js:240-282 | the field paints exactly the grid patches whose centres are inside, each in bounds and clipped, in reading order |
| TernaryField.FieldNoOverlap | src/main.js:242-280 | no two painted patches share a pixel |
| TernaryField.PaintPatch | src/main.js:245-280 | the loop body paints the patch that the field defines for its cell, or nothing |
| TernaryField.RasterizeRow | src/main.js:244-281 | the inner loop paints exactly the field's patches of one row |
| TernaryField.Rasterize | src/main.js:240-282 | the nested loops paint exactly the field |
| Hover.Normalize | src/main.js:417 | each weight divided by the total; keeps the number of weights |
| Hover.Scale100 | src/main.js:424 | each normalised share times 100; keeps the number of entries |
| Hover.Rounded | src/main.js:425 | each raw percentage rounded and held at 0 or above; keeps the number of entries |
| Hover.Percentages | src/main.js:424-430 | the rounded percentages, with the difference from 100 added to the first largest entry and held at 0 or above |
| Hover.SampleOf | src/main.js:373-430 | the readout at a canvas point: nothing without three colours, outside the triangle or for a non-positive total; else the normalised weights, their mixer arguments and the percentages |
| Hover.FirstMaxIndex | src/main.js:428 | `indexOf(Math.max(...))`: a position holding the largest value, before which every value is smaller |
| Hover.PercentagesChangeOnlyMax | src/main.js:425-430 | the correction changes only the entry at the first largest raw value, none when the sum is already 100, and no entry is negative |
| Hover.PercentagesSumWhenUnclamped | src/main.js:426-430 | when the corrected entry is not held at 0, the percentages add up to 100 |
| Hover.PercentagesSumTo100 | src/main.js:424-430 | raw percentages summing to 100, none below -1/2, always end up summing to exactly 100 |
| Hover.CorrectPercentages | src/main.js:424-430 | the in-place array correction yields the corrected percentages |
| Hover.SampleAt | src/main.js:373-430 | the hover handler computes the readout at the sampled canvas point, or reports nothing |
| Hover.SampleSpec | src/main.js:373-430 | a readout exists if and only if there are three colours and the point passes the inside test; its shares are the point's weights, it mixes one colour per positive share, and its percentages are non-negative and add up to 100 |
| Hover.SampleAtVertexA | src/main.js:395-430 | hovering over vertex A reports shares (1, 0, 0), mixes the first colour alone, and shows 100 / 0 / 0 |
| MixBars.PairIndices | src/main.js:21-25 | the colour indices of the three pairs in bar order: (0, 1), (1, 2), (0, 2) |
| MixBars.StepRatio | src/main.js:107 | a step's ratio lies in [0, 1]; it is 0 at step 0 and 1 at step 40 |
| MixBars.SelectedIndex | src/main.js:145 | the selected step for a ratio: `Math.round(ratio * 40)` |
| MixBars.SelectedIndexOfStep | src/main.js:145 | the selection computed from a clicked step's ratio is that step |
| MixBars.SelectedIndexInRange | src/main.js:145-166 | every ratio in [0, 1] selects a step from 0 to 40, whose ratio is within 1/80 of it |
| MixBars.IsMarker | src/main.js:81 | the marker rule: steps 0, `Math.round(40 / 2)` and 40 |
| MixBars.Track | src/main.js:76-85 | the 41 step elements of a bar, each with its pair, step index and marker flag |
| MixBars.TrackShape | src/main.js:76-83 | a track has 41 steps numbered in order, and exactly steps 0, 20 and 40 are markers |
| MixBars.StepArgs | src/main.js:149-158 | step 0 mixes the first colour alone and step 40 the second alone; any other step mixes both, at 1 - i/40 and i/40 |
| MixBars.StepPaint | src/main.js:160-161 | a step is the mix of its arguments, or the plain first colour when there are none |
| MixBars.StepPaintAlwaysMixes | src/main.js:152-161 | no step falls back to the plain first colour, and the shares of a step add up to 1 |
| MixBars.Label | src/main.js:136-138 | the bar readout: both shares times 100, each rounded on its own |
| MixBars.LabelSum | src/main.js:136-138 | for every ratio, the two shown percentages add up to 100 or 101 |
| MixBars.LabelAtMiddle | src/main.js:136-138 | the readout at step 20 is 50 : 50 |
| MixBars.LabelAtStepOne | src/main.js:136-138 | the readout at step 1 is 98 : 3, summing to 101 |
| MixBars.RenderBar | src/main.js:119-167 | one bar as drawn: active flag, readout, and its 41 steps with their paint and selected flag |
| MixBars.RenderBars | src/main.js:119-167 | the three bars in pair order |
| MixBars.RenderBarsSpec | src/main.js:119-167 | exactly the active bar is highlighted; each bar has 41 steps, all mixed from its pair's colours; exactly one step, the rounded ratio, is selected |
| MixBars.RatioState.constructor | src/main.js:27-28 | every pair starts at ratio 0.5 with the first pair active |
| MixBars.RatioState.Selected | src/main.js:145 | the selected step of a pair lies in 0..40 |
| MixBars.RatioState.Click | src/main.js:98-112 | the clicked pair takes the step's ratio and becomes active; the other pairs are unchanged; the clicked step is selected afterwards |
| BarsAndField.EdgePointWeights | src/main.js:395-403 | the point i/40 of the way along a pair's edge has weights 1 - i/40 and i/40 on that pair's vertices |
| BarsAndField.BarStepMatchesHover | src/main.js:149-158 | for every step of every bar, the readout at the matching edge point exists and hands the mixer exactly that step's arguments |

## Left out

- The spectral mixer (`spectral.mix`, colour parsing, hex formatting): a foreign library. Only the argument lists handed to it are modelled.
- DOM and canvas I/O: element creation, class toggles, `fillRect`, titles, aria text and tooltip placement. They are represented by the values computed for them (patch rectangles, bar views, readouts).
- Canvas sizing (lines 201-221): the display width, `devicePixelRatio` and the `sqrt(3)/2` height. The canvas size is a parameter. The early return for display width 0 is not modelled. The model accepts widths and heights of 0, for which nothing is painted.
- Mouse coordinates and the client-to-canvas scaling (lines 377-384): the sampled canvas point is a parameter of `Hover.SampleAt`.
- Event wiring, `requestAnimationFrame`, the resize handler, the hidden colour pickers and `updateColorSamples`: I/O and scheduling, with no computation of their own.
- IEEE double arithmetic: weights, ratios and shares are exact reals. This is why the `totalWeight === 0` skip (line 266) and the `total <= 0` check (line 412) are proved never to fire at inside points.
- MixBars.RatioState.Click: requires a pair index below 3 and a step index of at most 40. These are the values the step elements carry. The `parseInt(... || "0")` fallback for missing data attributes is not modelled.
- TernaryField.Rasterize: the colour list is required to have three entries, as the palette always does.

### Behaviour of the code worth noting

- Step ratios are stored as `stepIndex / 40`, without clamping (line 107). They lie in [0, 1] because step indices run from 0 to 40.
- The bar readout rounds the two shares independently (line 138). The pair shown adds up to 100 or 101 (`MixBars.LabelSum`); at step 1 it is 98 : 3 (`MixBars.LabelAtStepOne`).
- The patch step is `max(1, floor(W / 250))` (line 240). It is 1 for every width below 500 pixels, so a canvas from 250 to 499 pixels wide has one patch per pixel column (`PatchGrid.PatchStep`).
