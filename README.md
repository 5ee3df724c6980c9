# Texturing: a verified model of a scanline texture-mapping triangle filler

The program draws textured triangles point by point onto a Qt painter. It has two
cores, and this project models both together with the demo scene that drives them.

The first core is `drawTriangle`:
- It sorts the three vertices by `y` with three compare-and-swaps.
- It gives up on a triangle whose top and bottom truncate to the same row.
- It computes per-row increments of x, depth and texture coordinates along the three edges, and per-column increments along a row.
- Once per half it decides which edge is walked on the left.
- It then walks the rows of the upper half (while `y < V2.y`) and of the lower half (while `y < V3.y`).
- In each row it emits one point per integer column of a half-open span, in the colour of the texel at `(int)u + (int)v * 256`.

The second core is the `Texture` object:
- `draw` emits every point of the bitmap in row-major order, using a running row offset.
- `loadFromBitmap` stores what the bitmap loader returns and reports whether it returned pixels.

The scene has two triangles and a timer. On each tick the timer turns and re-centres copies of both triangles and draws them.

Modules:
- `Painting` (painter.dfy) holds the output side. A colour is a 32-bit word; its top (alpha) byte is not plotted. A `Painter` object records, in call order, every point it is asked to plot.
- `Textures` (texture.dfy) holds the `Texture` class with its `data`, `width` and `height` fields, plus the functions and lemmas that describe a texture's drawing.
- `Rasterizer` (rasterizer.dfy) holds `drawTriangle` as imperative Dafny, proved against pure specification functions:
  - `SortByY` for the sort;
  - `Prepare` for the increments;
  - `UpperEdges` and `LowerEdges` for the edge roles;
  - `Rows` and `RowsEnd` for the row walk;
  - `Span` for the column walk;
  - `Fragments` for the whole triangle;
  - `Render` for the texel lookup.
- `RasterizerFacts` (rasterizer_facts.dfy) holds the properties of those specification functions.
- `Scene` (scene.dfy) holds the scene setup, the vertex transform and the timer tick.

Coordinates are real numbers, so float rounding is not modelled. `ceil` is `Rasterizer.Ceil`. C's `(int)` cast, and the implicit float-to-int conversions of `x_end = x_left` and of `putPixel`'s `y`, are `Rasterizer.Trunc`: truncation toward zero.

Four facts about the code that the model keeps:
- There is no sub-pixel prestep at the top of a half: both walkers start exactly at `V1.x` and the row at `V1.y` (main.cpp:90-96).
- There is no depth buffer and no depth test. The depth `z` is interpolated, but `putPixel` writes every point (main.cpp:31-35).
- Both edges and the left-edge values advance *before* a row is filled (main.cpp:106-115, 146-155). So the first row is already one step down its edges.
- The texture is read with a fixed row stride of 256 (main.cpp:122, 131, 161), not the texture's width. `RasterizerFacts.TexelMatchesImage` shows the texel read is the one `Texture::draw` shows at `((int)u, (int)v)` exactly when the texture is 256 wide, or on row 0.

One consequence of the code, proved as `RasterizerFacts.UpperHalfUsesLowerRule`: in exact arithmetic the inverted-span branch of the upper half (main.cpp:125-133) never emits anything. Both edges start at the top vertex, and the edge with the smaller slope is on the left. The same holds in float, by an argument the model does not make: both walkers start on `V1.x` with `dXdY21 <= dXdY31`, and rounding is monotone, so `x_left <= x_right` on every row; at equality the inverted span `[ceil(x), (int)x)` is empty. Only an overflow or a NaN could reach that branch.

Another consequence is a defect, listed under "## Findings": a triangle with a flat top draws nothing. `Rasterizer.DrawTriangle` models the code as written, so it keeps this behaviour. The corrected lower-half start is given beside it in `RasterizerFacts`.

## Model

| member | source | states |
|---|---|---|
| Painting.Painter.DrawPoint | main.cpp:31-35 | setting the pen and drawing a point appends exactly that point, in that colour, to what the painter has drawn |
| Rasterizer.PutPixel | main.cpp:31-35 | `putPixel` appends one point `(x, y)` in the given colour and nothing else |
| Rasterizer.Swap | main.cpp:14-21 | the two values change places |
| Rasterizer.Ceil | main.cpp:59-61 | the result is the least integer not below its argument: `r <= c < r + 1` |
| Rasterizer.Trunc | main.cpp:49 | the result is truncation toward zero: for `r >= 0` it is the largest integer not above `r`; for `r < 0` it is the least integer not below `r` |
| Rasterizer.Order | main.cpp:39-41 | one compare-and-swap returns the pair in ascending y order, as a permutation of its inputs, unchanged when already in order |
| Rasterizer.SortByY | main.cpp:39-47 | after the three compare-and-swaps `V1.y <= V2.y <= V3.y`, and the three vertices are a permutation (same multiset) of the input |
| Rasterizer.SortVertices | main.cpp:39-47 | the in-place swap sequence yields exactly the sorted triple `SortByY` describes |
| Rasterizer.UpperEdges | main.cpp:98-103 | after the upper-half role swap, the left slope is at most the right slope; the roles are the two input edges in some order; they are unswapped when `dXdY21 <= dXdY31` |
| Rasterizer.OrderUpperEdges | main.cpp:98-103 | the slope swap and the copies of the long edge's depth and texture increments give exactly the left edge and right slope that `UpperEdges` chooses |
| Rasterizer.LowerEdges | main.cpp:137-143 | after the lower-half role swap, the right slope is at most the left slope; the roles are the two input edges in some order; the short edge is on the left when `dXdY31 <= dXdY32` |
| Rasterizer.OrderLowerEdges | main.cpp:137-143 | starting again from the long-edge slope saved at line 66, the swap gives exactly the roles `LowerEdges` chooses |
| Rasterizer.FillSpan | main.cpp:118-123 | the column loop emits, in order, the texel colours of the fragments of `Span`: columns `xStart .. xEnd-1`, each after adding the per-column increments once more |
| Rasterizer.UpperRow | main.cpp:106-134 | one pass of the upper loop body advances the walk by one row's increments and emits exactly that row's span; the span is `[ceil(x_left), ceil(x_right))`, or `[ceil(x_right), (int)x_left)` when `x_left >= x_right` |
| Rasterizer.UpperHalf | main.cpp:105-135 | the upper loop emits the rows of `Rows` while `y < V2.y` and leaves the walk in the state `RowsEnd` describes |
| Rasterizer.LowerRow | main.cpp:146-163 | one pass of the lower loop body advances the walk and emits the span `[ceil(x_left), ceil(x_right))` of that row |
| Rasterizer.LowerHalf | main.cpp:145-164 | the lower loop starts from the state the upper loop left, emits the rows of `Rows` while `y < V3.y`, and ends in the state `RowsEnd` describes |
| Rasterizer.DrawTriangle | main.cpp:37-165 | `drawTriangle` draws exactly `Render(Fragments(V1, V2, V3))`: each fragment of the sorted triangle's two halves, in emission order, in the colour of its texel |
| Rasterizer.RenderAppend | main.cpp:117-133 | drawing one run of fragments and then another draws their concatenation |
| Rasterizer.SampledAppend | main.cpp:122 | a concatenation reads only texels inside the buffer exactly when both parts do |
| Rasterizer.RowsStepRender | main.cpp:105-135 | one loop iteration splits what is left to draw into the current row, then the rows after it, and leaves the final walk state unchanged |
| RasterizerFacts.SpanShape | main.cpp:117-123 | a span from x to x_end has `x_end - x` pixels (none when `x >= x_end`); pixel k is at column `x + k` of the row, with `z = zp + (k+1)*dZdX` and likewise for u and v |
| RasterizerFacts.LowerRowColumns | main.cpp:148-162 | a lower-half row covers exactly the integer columns x with `x_left <= x < x_right`, left to right, one pixel each, and an inverted row is empty |
| RasterizerFacts.UpperInvertedRowColumns | main.cpp:125-133 | an inverted upper-half row covers the columns from `ceil(x_right)` up to but not including `(int)x_left`, with the same z/u/v accumulation |
| RasterizerFacts.RowSpanInRow | main.cpp:122 | every pixel of a row is emitted on that row, `(int)y` |
| RasterizerFacts.RowCountStep | main.cpp:105 | while `y < yEnd` at least one row remains, and one row's step of `y += 1.0` removes exactly one |
| RasterizerFacts.StepsProduct | main.cpp:106-115 | adding an increment n times adds n times the increment |
| RasterizerFacts.JumpStep | main.cpp:106-115 | one row's step followed by k-1 more is the same as k steps from the start |
| RasterizerFacts.RowsEndState | main.cpp:105-135 | a half runs `ceil(yEnd - y0)` rows (none when `y0 >= yEnd`); y rises by exactly 1 per row; both edges and the left-edge depth and texture values have added their increments once per row |
| RasterizerFacts.RowsEndStops | main.cpp:145-164 | a half loop ends with `y >= yEnd`, less than one row past it when it ran, and leaves a walk that starts at or below `yEnd` untouched |
| RasterizerFacts.RowsOrdered | main.cpp:105-135 | within a half the emitted row numbers never decrease and lie between `(int)` of the first and of the last row walked |
| RasterizerFacts.FragmentsOrdered | main.cpp:37-165 | all pixels of a triangle are emitted in nondecreasing row order across both halves |
| RasterizerFacts.HeightGuard | main.cpp:49-60 | a triangle whose sorted top and bottom truncate to the same row emits nothing; any other has `V1.y < V3.y`, so `ceil(V3.y - V1.y) >= 1` and `dY31` is defined |
| RasterizerFacts.ZeroRowCountHalvesEmpty | main.cpp:59-61 | when `ceil(V2.y-V1.y)` or `ceil(V3.y-V2.y)` is 0, that half emits nothing; a zero upper count also leaves the walk on the top vertex, so the reciprocal of zero reaches neither a pixel nor the lower half |
| RasterizerFacts.UpperRowsNeverInverted | main.cpp:117-133 | while the left edge starts at or left of the right edge and its slope is no larger, the upper-half rows equal those of the plain left-to-right rule |
| RasterizerFacts.UpperHalfUsesLowerRule | main.cpp:90-133 | the upper half of every triangle emits exactly what the plain `[ceil(x_left), ceil(x_right))` rule emits |
| RasterizerFacts.TexelMatchesImage | main.cpp:122 | for a texel `((int)u, (int)v)` inside a `w x h` texture, the index read is `(int)u + (int)v*w` exactly when `w == 256` or the row is 0; when `w == 256` it is the entry `Texture::draw` shows at that point (texture.cpp:17) |
| RasterizerFacts.RowsEndLinear | main.cpp:105-115 | closed form of a half's walk: after `RowCount` rows, y has risen by that count and x_left, x_right, zp, up and vp have each added count times their increment |
| RasterizerFacts.EdgeReachesEnd | main.cpp:59-86 | the increments of an edge split over its n rows, added n times to the start vertex's x, depth and scaled texture coordinates, give the end vertex's |
| RasterizerFacts.LeftWalkerReachesEnd | main.cpp:105-115 | a left walker that starts on V1 and follows the edge to V2 ends the half on V2's x, depth and scaled texture coordinates |
| RasterizerFacts.RightWalkerReachesEnd | main.cpp:105-107 | a right walker that starts on V1 and follows the edge to V2 ends the half on V2's x |
| RasterizerFacts.UpperEdgeReachesMiddle | main.cpp:90-135 | when the upper half runs, the walker on the short edge ends it on V2: unswapped, the left walker has V2's x, depth and texture position; swapped, the right walker has V2's x |
| RasterizerFacts.ColumnDepthReachesMiddle | main.cpp:68-74 | `dZdX` is the x gradient of the plane through the three vertices with heights counted in rows: from V1 down the long edge to V2's row and then across to V2.x it reaches V2.z |
| RasterizerFacts.ColumnUReachesMiddle | main.cpp:68-80 | the same for `dUdX` and u scaled by `width - 1` |
| RasterizerFacts.ColumnVReachesMiddle | main.cpp:68-86 | the same for `dVdX` and v scaled by `height - 1` |
| RasterizerFacts.InvertedRowsEmpty | main.cpp:145-164 | lower-half rows whose left walker starts at or right of the right walker, and moves right at least as fast, are all empty |
| RasterizerFacts.FlatTopEmitsNothing | main.cpp:90-164 | as written, a sorted triangle with `V1.y == V2.y < V3.y` emits no pixel |
| RasterizerFacts.FlatTopExample | main.cpp:37-165 | the triangle (0,0), (10,0), (5,10) passes the height check, is ten rows high, and draws nothing |
| RasterizerFacts.FixedScanAgrees | main.cpp:90-164 | the corrected lower-half start changes nothing for a triangle whose top is not flat |
| RasterizerFacts.FixedFlatTopWalkersMeet | main.cpp:137-164 | with the corrected start, a flat-topped triangle's walkers start on V1 and V2 and both reach V3.x at the end of the lower half |
| RasterizerFacts.FixedFlatTopExample | main.cpp:145-164 | with the corrected start, the example triangle draws at least the nine pixels of its first row |
| Rasterizer.Recip | main.cpp:59-61 | `1 / d`, with 0 in place of the infinity of a zero row count; `ZeroRowCountHalvesEmpty` shows that value never reaches a pixel |
| Rasterizer.EdgeSteps | main.cpp:63-85 | the per-row increments of x, depth and texture coordinates along one edge; `EdgeReachesEnd` shows they lead from one end vertex to the other |
| Rasterizer.ColumnDenominator | main.cpp:68 | the denominator of `dX`; `ColumnDepthReachesMiddle` and its two companions show the per-column increments it yields are the plane's gradients |
| Rasterizer.ColumnSteps | main.cpp:68-86 | the per-column increments `dZdX`, `dUdX`, `dVdX`; partners `ColumnDepthReachesMiddle`, `ColumnUReachesMiddle`, `ColumnVReachesMiddle` |
| Rasterizer.Prepare | main.cpp:59-86 | all increments of a sorted triangle; partners `EdgeReachesEnd`, `UpperEdgeReachesMiddle` and the three column lemmas |
| Rasterizer.Start | main.cpp:90-96 | the walk at the top vertex; `RowsEndLinear` gives the walk's values after any number of rows from it |
| Rasterizer.Advance | main.cpp:106-134 | one row's step: both edges and the left-edge values add their increments and y rises by 1 (also main.cpp:146-163); `JumpStep` and `RowsEndState` give the effect of many steps |
| Rasterizer.RowCount | main.cpp:105 | the rows a half runs from y to yEnd; `RowsEndState` shows the walk takes exactly that many steps and `RowCountStep` that each step removes one |
| Rasterizer.SpanStart | main.cpp:117-127 | the first column of a row, `ceil(x_left)`, or `ceil(x_right)` for an inverted upper row (also main.cpp:157); characterised by `LowerRowColumns` and `UpperInvertedRowColumns` |
| Rasterizer.SpanEnd | main.cpp:108-127 | the column past a row, `ceil(x_right)`, or `(int)x_left` for an inverted upper row (also main.cpp:148); characterised by `LowerRowColumns` and `UpperInvertedRowColumns` |
| Rasterizer.Span | main.cpp:118-123 | one row's pixels, the column loop as a value; characterised by `SpanShape` and implemented by `FillSpan` |
| Rasterizer.RowSpan | main.cpp:117-162 | a row's span under the upper or lower rule; characterised by `LowerRowColumns`, `UpperInvertedRowColumns` and `RowSpanInRow` |
| Rasterizer.Rows | main.cpp:105-164 | a half's pixels, the row loop as a value; characterised by `RowsOrdered` and `RowsStepRender` and implemented by `UpperHalf` and `LowerHalf` |
| Rasterizer.RowsEnd | main.cpp:105-164 | a half's final walk; characterised by `RowsEndState`, `RowsEndStops` and `RowsEndLinear` |
| Rasterizer.UpperRows | main.cpp:90-135 | the upper half's pixels; `UpperHalfUsesLowerRule` shows they follow the plain rule, and `ZeroRowCountHalvesEmpty` that they are empty for a zero row count |
| Rasterizer.UpperEnd | main.cpp:90-135 | the walk when the upper half is done; `UpperEdgeReachesMiddle` shows the short-edge walker is then on V2 |
| Rasterizer.LowerRows | main.cpp:137-164 | the lower half's pixels, continuing from `UpperEnd`; `ZeroRowCountHalvesEmpty` shows they are empty for a zero row count |
| Rasterizer.Scan | main.cpp:90-164 | both halves of a sorted triangle; `FlatTopEmitsNothing` shows it is empty for a flat top, and `FixedScanAgrees` relates it to the corrected `FixedScan` |
| Rasterizer.Fragments | main.cpp:37-165 | all pixels of a triangle in emission order; characterised by `FragmentsOrdered`, `HeightGuard` and `FlatTopEmitsNothing`, and drawn by `DrawTriangle` |
| Rasterizer.Render | main.cpp:117-162 | the run of `putPixel` calls at main.cpp:122, 131 and 161: one pixel per fragment, in order; `RenderAppend` shows it distributes over concatenation, and `DrawTriangle` is proved to draw it |
| Rasterizer.TexelIndex | main.cpp:122 | the buffer index `(int)u + (int)v*256`; related to the texture's layout by `TexelMatchesImage` |
| Rasterizer.Shade | main.cpp:122 | the pixel for one fragment, in its texel's colour; `RenderAppend` and `SampledAppend` give its use over a run of fragments |
| Textures.RowUpTo | texture.cpp:16-19 | the inner loop as a value: points `(0, y) .. (n-1, y)` in the colours `data[x + y*w]`; `Texture.DrawRow` is proved to emit it |
| Textures.Image | texture.cpp:15-21 | the nested loop as a value, rows top to bottom; characterised by `ImageLength`, `ImageAt`, `ImagePosition` and `ImageCoversOnce`, and emitted by `Texture.Draw` |
| Textures.Texture.constructor | texture.h:14 | a default texture has width 0, height 0 and no pixel buffer |
| Textures.Texture.Draw | texture.cpp:3-22 | without pixels nothing is drawn; otherwise all rows `0 .. height-1` are drawn top to bottom and each row left to right, point `(x, y)` in colour `data[x + y*width]` |
| Textures.Texture.DrawRow | texture.cpp:16-19 | the inner loop draws the points `(0, y) .. (width-1, y)` of one row, in the colours starting at `offset == y*width` |
| Textures.Texture.LoadFromBitmap | texture.cpp:24-31 | the loader's buffer, width and height always replace the fields; the result is 1 exactly when the buffer is non-null and 0 exactly when it is null |
| Textures.ImageLength | texture.cpp:15-21 | drawing a `width x height` texture plots exactly `width*height` points (none for a non-positive size) |
| Textures.ImageAt | texture.cpp:14-20 | the point `(x, y)` is plotted as number `y*width + x`, in colour `data[x + y*width]` |
| Textures.ImagePosition | texture.cpp:15-18 | every plotted point lies in `[0, width) x [0, height)`, and point number i shows `data[i]` |
| Textures.ImageCoversOnce | texture.cpp:15-16 | every point of the rectangle is plotted, and plotted exactly once |
| Scene.Rotate | main.cpp:198-216 | the per-frame transform copies depth and texture coordinates unchanged; only x and y are recomputed |
| Scene.RotateRoundTrip | main.cpp:204-216 | for a genuine angle (`c*c + s*s == 1`), turning back by the opposite angle recovers the original vertex, so the transform loses nothing |
| Scene.RotationKeepsRadius | main.cpp:204-216 | for a genuine angle, a transformed vertex is exactly as far from the window centre `(400, 300)` as the original is from the origin |
| Scene.RotationKeepsDistance | main.cpp:204-216 | for a genuine angle, two vertices keep their distance, so each triangle keeps its shape from frame to frame |
| Scene.Animation.constructor | main.cpp:174-188 | the scene starts with the six vertices A..F of the source and the frame counter at 0 |
| Scene.Animation.Tick | main.cpp:189-226 | one tick draws the transformed copy of triangle A B C, then that of D E F; it leaves the triangles as they were and advances the counter by one |
| Scene.Startup | main.cpp:182-185 | a fresh texture takes the loader's results; it is drawn once when the load returned pixels; after a failed load nothing is drawn and the texture stays empty |

## Findings

| source | as written | input that shows it | evidently intended | confidence | as-written member | corrected member |
|---|---|---|---|---|---|---|
| main.cpp:90-91, 105, 137-147, 157 | both walkers start at `V1.x`; when `V1.y == V2.y` the upper loop runs no rows, so the short-edge walker is never moved to `V2.x`; the lower-half roles then give the left walker a slope at least the right one's, so `x_left >= x_right` on every row and every span is empty | (0,0), (10,0), (5,10): ten rows high, passes the height check at line 49, draws no pixel | a flat-topped triangle is filled: its lower half starts with one walker on `V1.x` and the other on `V2.x`, and both meet at `V3.x` | high; not executed | RasterizerFacts.FlatTopEmitsNothing | RasterizerFacts.FixedFlatTopWalkersMeet |

`RasterizerFacts.FlatTopExample` works the example through `Fragments`. `RasterizerFacts.FixedLowerStart` and `RasterizerFacts.FixedScan` are the corrected definitions. `RasterizerFacts.FixedScanAgrees` proves they agree with the code on every other triangle, and `RasterizerFacts.FixedFlatTopExample` proves they draw the example's first row.

## Left out

- Qt plumbing is not modelled: `QApplication`, `QPixmap`, `QLabel`, `QTimer` and the signal connection, `pixmap.fill`, `setPixmap` and `show`. The painter is only an append-only record of plotted points, so the black fill before each frame does not clear it.
- `qCos` and `qSin` of `step * M_PI / 100.0` are not modelled. `Scene.Animation.Tick` takes the cosine and sine as parameters. The counter `step` is kept and advanced, but the angle is not computed from it.
- Scene.Animation.Tick: requires `Drawable` for both transformed triangles. The source does not check this; it would read outside the texture or convert an infinite value.
- Scene.Animation.Tick and Rasterizer.DrawTriangle: `Drawable` also requires the texture to have a pixel buffer whenever a triangle emits pixels. The source guards only the start-up draw on a successful load (main.cpp:183-185). It draws both triangles on every tick (main.cpp:220-221) even after a failed load, and then reads through a null `data` pointer at main.cpp:122, 131 and 161. The model does not cover that null read.
- Float arithmetic is not modelled: rounding, infinities and NaN. Coordinates are reals. `1.0 / ceil(...)` of a zero row count is `Rasterizer.Recip`, which gives 0 in place of infinity; `RasterizerFacts.ZeroRowCountHalvesEmpty` shows such a value never reaches a pixel.
- Termination of the row loops holds only in exact arithmetic. In float, the spacing of values beyond 2^24 in magnitude is at least 2, so `y += 1.0` (main.cpp:134, 163) rounds to a tie or back to `y`: for `y >= 2^24` the counter stops within one step, and for `y <= -2^25` it never moves. A triangle that reaches that far can loop forever in the source. In the model every row raises `y` by exactly 1.
- Rasterizer.DrawTriangle: requires, through `Drawable`, that a triangle which emits pixels has a non-zero `dX` denominator (main.cpp:68), because the source would cast an infinite or NaN texture coordinate to int. It also requires that every emitted pixel reads a texel inside the buffer, because the source performs an unchecked read there.
- Rasterizer.Shade: an out-of-buffer texel has colour 0 in the model. That read is undefined in the source, and `Drawable` excludes it wherever the model draws.
- The per-pixel depth `z` is accumulated in the model as in the source, but it is never used for drawing, and there is no depth test.
- `BMPLoader::loadTexture` (file reading and decoding) is not part of this model. Its three results — the pixel buffer (or null), the width and the height — are parameters of `Textures.Texture.LoadFromBitmap` and `Scene.Startup`; the file name is dropped.
- Textures.Texture.Draw and Scene.Startup: require that a loaded buffer holds at least `width*height` colours. The source assumes the loader guarantees this.
- The alpha byte is not modelled. `Painting.Painter` records the raw 32-bit colour word, but both output paths convert it to a `QColor` first: `setPen` with a `QRgb` at main.cpp:33 and `QColor::fromRgb` at texture.cpp:17. That conversion drops the top byte and plots the point opaque, so the recorded word's top byte is not what is plotted.
- The `TRGBColor` union is not modelled: no modelled code uses it.
- The destructor's `delete` is not modelled: memory is not modelled.
- `Texture::getColor` is not modelled: it is declared but has no body.
- Integer widths are not modelled: `int` is unbounded, so overflow of `y*width` or of texel indices does not arise.
