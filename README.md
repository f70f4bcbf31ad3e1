# Braille canvas and chart drawing layer of nu_plugin_plot

nu_plugin_plot draws plots in the terminal with Unicode Braille characters. This
project models the two parts of it that work in integers and bits, and proves
properties of the model:

- **The Braille canvas** (`src/color_plot/drawille.rs`, module `Drawille` in
  `drawille.dfy`). A canvas is a sparse map from character cells `(x / 2, y / 4)` to
  cell states `(mask, char, colored, color)`. Each dot `(x, y)` owns one bit
  `PIXEL_MAP[y % 4][x % 2]` of its cell, following the 8-dot layout of the Unicode
  Braille Patterns block (U+2800..U+28FF). Every canvas operation is first stated
  as a function on the cell map: `Paint`, `PutChar`, `Erase`, `Flip`, `PaintDots`,
  `LineDots`, `PutText` and `Grid`. The class `Drawille.Canvas` then performs the
  same operations in place on its `chars` field:
  - `set`, `set_colored`, `set_char`, `text`, `unset`, `toggle` and `get`;
  - `rows` and `frame`;
  - `line` and `line_colored`.

  Each method is proved equal to its function. The lemmas prove what the Rust code
  promises about those functions. The example in the module documentation
  (`new(10, 10); set(5, 4); line(2, 2, 8, 8)`) is proved to render to its three
  rows.
- **The drawing layer of the chart** (`src/color_plot/textplots/mod.rs`, module
  `Textplots` in `textplots.dfy`). It covers:
  - the size check of `new` and `new_with_y_range`;
  - registration of shapes by `lineplot` and `linecolorplot`;
  - the widening of the y range by `rescale`;
  - the dashed guide lines `vline`, `hline`, `borders` and `axis`;
  - the join policy of `figures`. Scatter plots set single dots. Lines and
    continuous shapes join consecutive points. Steps draw two strokes per window.
    Bars draw four strokes per window.

  `figures` takes the projected points as input: the float `Scale` projection that
  computes them is not part of this model. The integer filter after rounding is
  modelled: `Project` for discrete shapes and `ProjectContinuous` for continuous
  ones. It includes Rust's saturating `as u32` and the unchecked `height - j`.

  `figures` never clears the canvas. Every drawing is an overlay: it ORs a fixed
  set of dots into the cells and overwrites their char and colour state. So
  rendering the same shapes a second time changes nothing (`DrawAllIdempotent`).
  Drawing only points inside the canvas keeps the frame at the canvas's nominal
  `height / 4 + 1` rows of `width / 2 + 1` cells (`DrawAllFrameSize`).

`wrappers.dfy` holds the `Option` and `Result` types.

Two details of `figures` behave differently from how the code reads at first sight; the model follows what the code does:

- **Off-range discrete samples.** The filter `if i <= self.width && j <= self.height`
  (src/color_plot/textplots/mod.rs:291) reads as if it drops every sample that falls off
  the canvas. But `i` and `j` come from `round() as u32` (src/color_plot/textplots/mod.rs:289-290),
  and that cast saturates: a negative rounded coordinate becomes 0. A sample left of
  the x range or below the y range therefore passes the filter and is drawn on the left
  or bottom edge (`ProjectClampsNegative`). Only samples beyond `width` or `height` are dropped.
- **Continuous samples above the y range.** `Some((i, self.height - j as u32))`
  (src/color_plot/textplots/mod.rs:280) subtracts with no bound check, so a rounded value
  above `height` underflows. The model takes the wrap-around of a release build
  (`WrapSub`): such a point lands on a row far below the canvas (`ContinuousAboveWraps`),
  where a debug build would panic instead.

## Model

| member | source | states |
|---|---|---|
| Drawille.PixelBit | src/color_plot/drawille.rs:38 | each `PIXEL_MAP` entry is a single bit |
| Drawille.PixelBitsDistinct | src/color_plot/drawille.rs:38 | two dots share a bit (and a table entry) exactly when they sit at the same position of their cells |
| Drawille.PixelMapFillsByte | src/color_plot/drawille.rs:38 | the eight entries together fill the byte 0xFF |
| Drawille.CellKey | src/color_plot/drawille.rs:68 | the cell of dot `(x, y)` is `(x / 2, y / 4)`, each truncated to u16 as `as u16` does |
| Drawille.DotIn | src/color_plot/drawille.rs:138-144 | `get`: the cell exists and its mask has the dot's bit; an untouched cell reads false |
| Drawille.Paint | src/color_plot/drawille.rs:67-91 | `set` / `set_colored`: the dot is set; the map gains only its cell; other cells are unchanged; that cell gets char `' '` and the ink's colour state |
| Drawille.PutChar | src/color_plot/drawille.rs:94-104 | `set_char`: the cell becomes `(0, c, false, White)`, so none of its dots is set; nothing else changes |
| Drawille.Erase | src/color_plot/drawille.rs:118-125 | `unset`: the dot is clear; the cell's char and colour state are kept; other cells are unchanged |
| Drawille.Flip | src/color_plot/drawille.rs:128-135 | `toggle`: the dot's state is inverted; the cell's char and colour state are kept; other cells are unchanged |
| Drawille.PaintSetsOneDot | src/color_plot/drawille.rs:67-77 | after `set(p)` a dot q is set exactly when it was set before or q is p, so the other bits of the mask are kept |
| Drawille.EraseClearsOneDot | src/color_plot/drawille.rs:118-125 | after `unset(p)` a dot q is set exactly when it was set before and q is not p |
| Drawille.FlipChangesOneDot | src/color_plot/drawille.rs:128-135 | `toggle(p)` flips p and no other dot |
| Drawille.FlipTwice | src/color_plot/drawille.rs:128-135 | toggling twice restores every cell: the map is unchanged, except that a cell first created by the toggle stays as a blank entry |
| Drawille.LastInkWins | src/color_plot/drawille.rs:73-76 | whatever the first write of a cell was, the last `set` / `set_colored` decides the whole cell's colour state and resets its char |
| Drawille.PaintDots | src/color_plot/drawille.rs:203-215 | the cells after `set` (or `set_colored`) on each dot of a sequence, first to last; its properties are `PaintDotsExact`, `PaintDotsFrame`, `PaintDotsAppend` and `PaintDotsInk` |
| Drawille.PaintDotsExact | src/color_plot/drawille.rs:203-215 | after setting a sequence of dots, a dot is set exactly when it was set before or is one of them |
| Drawille.PaintDotsHas | src/color_plot/drawille.rs:203-215 | every dot of a painted sequence is set afterwards |
| Drawille.PaintDotsFrame | src/color_plot/drawille.rs:203-215 | setting a sequence of dots adds only the cells of those dots and leaves every other cell unchanged |
| Drawille.PaintDotsAppend | src/color_plot/drawille.rs:203-215 | setting `a` and then `b` is setting `a + b` |
| Drawille.PaintDotsInk | src/color_plot/drawille.rs:220-241 | every cell a line touches ends with the line's colour state and char `' '` |
| Drawille.OverlayAssoc | src/color_plot/drawille.rs:67-91 | laying `a` and then `b` over a map is laying `a` with `b` over it over the map; OR of masks is associative and the top cell's char and colour state win |
| Drawille.OverlayTwice | src/color_plot/drawille.rs:67-91 | laying the same drawing a second time leaves the map as the first time did |
| Drawille.PaintOverlay | src/color_plot/drawille.rs:67-91 | `set` / `set_colored` on any map lays the cell they produce on an empty map over it: the old dots are ORed in, the char and colour state are overwritten |
| Drawille.PaintDotsOverlay | src/color_plot/drawille.rs:195-241 | painting a sequence of dots lays one fixed drawing over whatever map it starts from |
| Drawille.PaintDotsIdempotent | src/color_plot/drawille.rs:195-241 | painting the same dots with the same ink twice gives the same map as painting them once |
| Drawille.ScaledStep | src/color_plot/drawille.rs:207-212 | the offset `(i * diff) / r` lies in `[0, diff]`; it is 0 at step 0, `diff` at step r, and `i` on the major axis |
| Drawille.ScaledStepIncrement | src/color_plot/drawille.rs:207-212 | from one step to the next, the offset `(i * diff) / r` grows by 0 or 1 |
| Drawille.Offset | src/color_plot/drawille.rs:207-212 | the offset of step i lies in `[0, diff]`: 0 at the start, `diff` at the end, `i` on the major axis |
| Drawille.Advance | src/color_plot/drawille.rs:204-212 | each step's coordinate stays between the two ends; it starts at `a`, finishes at `b`, and on the major axis sits exactly i dots from `a` |
| Drawille.LineDots | src/color_plot/drawille.rs:195-216 | `line` visits `max(dx, dy) + 1` dots from `(x1, y1)` to `(x2, y2)` |
| Drawille.LineInBox | src/color_plot/drawille.rs:195-216 | every dot of a line lies in the bounding box of its endpoints |
| Drawille.LineDotsDistinct | src/color_plot/drawille.rs:195-216 | a line visits `max(dx, dy) + 1` distinct dot positions |
| Drawille.LineSetsEndpoints | src/color_plot/drawille.rs:195-216 | after a line both endpoints are set |
| Drawille.LineToItself | src/color_plot/drawille.rs:195-216 | `line(x, y, x, y)` sets exactly the dot `(x, y)` |
| Drawille.LineIsConnected | src/color_plot/drawille.rs:203-215 | consecutive dots of a line differ by at most one in each coordinate |
| Drawille.TextLen | src/color_plot/drawille.rs:107-115 | `text` places char i exactly when `2 * i <= max_width`, so a char at offset exactly `max_width` is still placed |
| Drawille.PutText | src/color_plot/drawille.rs:107-115 | `set_char` of char i at dot column `x + 2i` for each char in turn; `PutTextShows` proves where each char ends up |
| Drawille.PutTextShows | src/color_plot/drawille.rs:107-115 | every placed char ends up in its own cell at dot column `x + 2i`, uncoloured, with no dots set |
| Drawille.Braille | src/color_plot/drawille.rs:173 | a mask prints as codepoint `0x2800 + mask`, inside the Braille Patterns block |
| Drawille.Render | src/color_plot/drawille.rs:171-182 | how `rows` prints one cell: its char when the mask is 0, else the Braille pattern of the mask, tinted with the cell's colour when the cell is coloured |
| Drawille.SetMax | src/color_plot/drawille.rs:151-160 | the maximum of the nominal size and the key coordinates: an upper bound of both, and equal to one of them |
| Drawille.Grid | src/color_plot/drawille.rs:150-187 | what `rows` returns: rows `0..=max(height, largest row key)`, each of cells `0..=max(width, largest column key)`, each rendered by `Render`; `GridShape` proves its size and contents |
| Drawille.GridRows | src/color_plot/drawille.rs:162-186 | rows that agree with the grid row by row are the grid |
| Drawille.GridShape | src/color_plot/drawille.rs:150-187 | `rows` has more than `height` rows, each longer than `width`; it covers every touched cell; an untouched cell shows as a blank |
| Drawille.Join | src/color_plot/drawille.rs:190-192 | `rows().join("\n")`; `SplitJoin` proves the rows can be read back from it |
| Drawille.SplitJoin | src/color_plot/drawille.rs:190-192 | cutting the frame at newlines gives back the rows it was joined from |
| Drawille.Canvas.constructor | src/color_plot/drawille.rs:53-59 | `new` starts with no cells and stores the nominal size `(width / 2, height / 4)` as u16 |
| Drawille.Canvas.Clear | src/color_plot/drawille.rs:62-64 | `clear` empties the map |
| Drawille.Canvas.Set | src/color_plot/drawille.rs:67-77 | `set` performs `Paint` with no ink; afterwards `get` is true |
| Drawille.Canvas.SetColored | src/color_plot/drawille.rs:81-91 | `set_colored` performs `Paint` with the colour; afterwards `get` is true |
| Drawille.Canvas.SetChar | src/color_plot/drawille.rs:94-104 | `set_char` performs `PutChar` |
| Drawille.Canvas.Text | src/color_plot/drawille.rs:107-115 | the loop with early return performs `set_char` on exactly the first `TextLen` chars |
| Drawille.Canvas.Unset | src/color_plot/drawille.rs:118-125 | `unset` performs `Erase`; afterwards `get` is false |
| Drawille.Canvas.Toggle | src/color_plot/drawille.rs:128-135 | `toggle` performs `Flip`; afterwards `get` is the negation of its old value |
| Drawille.Canvas.Get | src/color_plot/drawille.rs:138-144 | a cell never touched reads false |
| Drawille.Canvas.Extent | src/color_plot/drawille.rs:151-160 | the key loop finds the largest cell column and row among the nominal size and the keys |
| Drawille.Canvas.Rows | src/color_plot/drawille.rs:150-187 | `rows` returns exactly `Grid` of the map and the nominal size |
| Drawille.Canvas.RenderRows | src/color_plot/drawille.rs:162-186 | the outer loop builds one row per cell row `0..=maxcol` |
| Drawille.Canvas.RenderRow | src/color_plot/drawille.rs:164-183 | the inner loop renders cells `0..=maxrow` of one row |
| Drawille.Canvas.Frame | src/color_plot/drawille.rs:190-192 | `frame` is the grid's rows joined by newlines |
| Drawille.Canvas.Line | src/color_plot/drawille.rs:195-216 | `line` calls `set` on exactly the dots of `LineDots`, in order; both endpoints end up set |
| Drawille.Canvas.LineColored | src/color_plot/drawille.rs:220-241 | `line_colored` calls `set_colored` on exactly the dots of `LineDots`, in order; both endpoints end up set |
| Drawille.Canvas.Stroke | src/color_plot/drawille.rs:203-215 | the `for i in 0..=r` loop shared by `line` and `line_colored` sets the dots of `LineDots` in order, with `set` or `set_colored` |
| Drawille.Canvas.Dab | src/color_plot/drawille.rs:214 | one loop step extends the painted prefix by one dot |
| Drawille.StepCoordinate | src/color_plot/drawille.rs:204-212 | `a + ((i * diff) / r) * dir` in signed arithmetic is the coordinate `Advance` describes |
| Drawille.MaxIsSetMax | src/color_plot/drawille.rs:151-160 | a value that bounds the set and the nominal size, and equals one of them, is the maximum |
| Drawille.DiagonalDots | src/color_plot/drawille.rs:20 | `line(2, 2, 8, 8)` visits the seven diagonal dots |
| Drawille.ExampleDrawing | src/color_plot/drawille.rs:18-20 | the documented drawing produces exactly four cells with masks 0x84, 0x19, 0x84, 0x01 |
| Drawille.ExampleGrid | src/color_plot/drawille.rs:21-24 | those cells render to the three documented rows |
| Drawille.ExampleFrame | src/color_plot/drawille.rs:21-24 | the frame is the documented rows joined by `"\n"` |
| Drawille.ExampleCanvas | src/color_plot/drawille.rs:18-20 | `new(10, 10); set(5, 4); line(2, 2, 8, 8)` on a canvas leaves exactly those cells |
| Drawille.Example | src/color_plot/drawille.rs:17-25 | the example's `frame()` equals the documented text |
| Textplots.Min | src/color_plot/textplots/mod.rs:396 | `f32::min` on a bound: below both arguments and equal to one of them |
| Textplots.Max | src/color_plot/textplots/mod.rs:397 | `f32::max` on a bound: above both arguments and equal to one of them |
| Textplots.NormalValues | src/color_plot/textplots/mod.rs:364-374 | the continuous samples kept are exactly the normal ones |
| Textplots.InWindow | src/color_plot/textplots/mod.rs:375-384 | the y values kept are exactly those of points with `xmin <= x <= xmax` |
| Textplots.Ys | src/color_plot/textplots/mod.rs:363-385 | the values `rescale` collects: the normal samples of a continuous shape, or the y of every point inside the x range |
| Textplots.MaxOr0 | src/color_plot/textplots/mod.rs:387-390 | the largest value, and one of them; 0 when there is none |
| Textplots.MinOr0 | src/color_plot/textplots/mod.rs:391-394 | the smallest value, and one of them; 0 when there is none |
| Textplots.Widen | src/color_plot/textplots/mod.rs:396-397 | the new range `(min(ymin, smallest), max(ymax, largest))`; `WidenBounds`, `WidenIdempotent` and `WidenCommutes` prove what it keeps |
| Textplots.WidenBounds | src/color_plot/textplots/mod.rs:359-398 | after `rescale`, `ymin` has not increased and `ymax` has not decreased; the range covers every value seen, or 0 when there was none; each end is its old value or one of those values |
| Textplots.WidenIdempotent | src/color_plot/textplots/mod.rs:359-398 | rescaling with the same shape twice changes nothing the second time |
| Textplots.WidenCommutes | src/color_plot/textplots/mod.rs:359-398 | the range after two shapes does not depend on the order they were registered |
| Textplots.FirstWiden | src/color_plot/textplots/mod.rs:146-147 | a fresh auto-ranged chart takes exactly the smallest and largest value of its first shape |
| Textplots.Saturate | src/color_plot/textplots/mod.rs:289-290 | `as u32` on a rounded value: values in range are kept; negative values become 0; large values become `u32::MAX` |
| Textplots.Kept | src/color_plot/textplots/mod.rs:289-291 | a rounded sample passes the filter when both coordinates, cast with `as u32`, are within `width` and `height` |
| Textplots.Screen | src/color_plot/textplots/mod.rs:292 | a kept sample is drawn at `(i, height - j)`, so y grows downwards |
| Textplots.Project | src/color_plot/textplots/mod.rs:286-297 | the discrete projection keeps at most every sample, and every kept point lies inside `[0, width] x [0, height]` |
| Textplots.ProjectMembers | src/color_plot/textplots/mod.rs:286-297 | a point is projected exactly when it comes from a sample with `i <= width && j <= height`, at `(i, height - j)` |
| Textplots.ProjectInside | src/color_plot/textplots/mod.rs:286-297 | samples inside the canvas are all kept, in order, at `(i, height - j)` |
| Textplots.ProjectClampsNegative | src/color_plot/textplots/mod.rs:289-292 | a sample with negative rounded coordinates is kept at `(0, height)` |
| Textplots.WrapSub | src/color_plot/textplots/mod.rs:280 | release-mode `u32` subtraction: exact when there is no underflow, wrapped modulo 2^32 otherwise |
| Textplots.ProjectContinuous | src/color_plot/textplots/mod.rs:273-285 | the continuous projection yields at most one point per column, with strictly increasing columns |
| Textplots.ContinuousSource | src/color_plot/textplots/mod.rs:273-285 | every projected point comes from a column with a normal value, at `height - j` |
| Textplots.ContinuousKept | src/color_plot/textplots/mod.rs:273-285 | every column with a normal value yields its point |
| Textplots.ContinuousInside | src/color_plot/textplots/mod.rs:279-280 | a rounded value in `[0, height]` lands on the canvas, at `height - j` |
| Textplots.ContinuousAboveWraps | src/color_plot/textplots/mod.rs:280 | a rounded value above `height` wraps around to a row below the canvas |
| Textplots.PairSegments | src/color_plot/textplots/mod.rs:301-350 | a window yields one stroke for lines and continuous shapes, two for steps, four for bars |
| Textplots.StepSegments | src/color_plot/textplots/mod.rs:318-331 | the two strokes of a step: `(x1, y2) -> (x2, y2)`, then `(x1, y1) -> (x1, y2)` |
| Textplots.BarSides | src/color_plot/textplots/mod.rs:340-341 | the two sides a bar adds: `(x1, height) -> (x1, y1)`, then `(x2, height) -> (x2, y2)` |
| Textplots.Segments | src/color_plot/textplots/mod.rs:303-305 | the strokes of every window of `points.windows(2)`, window after window; `SegmentsLength` and `SegmentsAt` prove their count and positions |
| Textplots.SegmentsLength | src/color_plot/textplots/mod.rs:301-350 | `n` points yield `n - 1` windows of strokes, and none for fewer than two points |
| Textplots.SegmentsAt | src/color_plot/textplots/mod.rs:303-305 | stroke t of window k comes at position `k * PerPair + t`, in the `windows(2)` order |
| Textplots.PaintSegments | src/color_plot/textplots/mod.rs:306-310 | the cells after drawing each stroke with `line_colored` when a colour was registered and `line` otherwise, in order |
| Textplots.WindowEnds | src/color_plot/textplots/mod.rs:303-349 | in each window, the first point starts one of the strokes and the second point ends the first stroke |
| Textplots.PaintSegmentsAppend | src/color_plot/textplots/mod.rs:301-350 | drawing the strokes of `a` and then those of `b` is drawing `a + b` |
| Textplots.PaintSegmentsKeeps | src/color_plot/textplots/mod.rs:301-350 | drawing strokes never clears a dot |
| Textplots.PaintSegmentsEnds | src/color_plot/textplots/mod.rs:301-350 | once the strokes are drawn, both ends of every stroke are set |
| Textplots.PaintSegmentsInk | src/color_plot/textplots/mod.rs:306-310 | every cell a joined shape adds is coloured exactly when a colour was registered, and in that colour |
| Textplots.PaintSegmentsOverwrites | src/color_plot/textplots/mod.rs:306-310 | every cell some stroke passes through ends with the shape's colour state and char `' '`, even a cell an earlier shape drew: the last stroke wins |
| Textplots.PointsSetEachPoint | src/color_plot/textplots/mod.rs:313-317 | a scatter plot ignores its colour; it sets exactly its points and keeps everything else |
| Textplots.DrawShape | src/color_plot/textplots/mod.rs:301-350 | what `figures` draws for one shape: `set` on each point of a scatter plot, the strokes of `Segments` otherwise |
| Textplots.DrawAll | src/color_plot/textplots/mod.rs:268-351 | `figures`: every registered shape in registration order, each with its own points and colour; `FiguresShowEveryPoint` proves what stays visible, `DrawAllIdempotent` that a second render changes nothing, `DrawAllFrameSize` the size of the frame |
| Textplots.JoinedNeedsTwoPoints | src/color_plot/textplots/mod.rs:303 | a joined shape with fewer than two points draws nothing |
| Textplots.SegmentSetsEnds | src/color_plot/textplots/mod.rs:301-350 | both ends of each stroke of each window are set once the shape is drawn |
| Textplots.JoinedSetsEachPoint | src/color_plot/textplots/mod.rs:301-350 | a joined shape with at least two points sets every one of its points |
| Textplots.DrawShapeKeeps | src/color_plot/textplots/mod.rs:301-350 | drawing a shape never clears a dot |
| Textplots.DrawShapeShows | src/color_plot/textplots/mod.rs:301-350 | drawing a shape sets each of its points, for a scatter plot or for a shape with at least two points |
| Textplots.FiguresShowEveryPoint | src/color_plot/textplots/mod.rs:267-352 | after `figures`, every projected point of every shape is still set, whatever was drawn later; the lone point of a joined shape is the exception |
| Textplots.PaintSegmentsOverlay | src/color_plot/textplots/mod.rs:302-349 | painting strokes lays one fixed drawing over whatever map it starts from |
| Textplots.DrawShapeOverlay | src/color_plot/textplots/mod.rs:300-350 | drawing one shape lays one fixed drawing over whatever map it starts from |
| Textplots.DrawAllOverlay | src/color_plot/textplots/mod.rs:267-352 | `figures` never clears the canvas: it lays one fixed drawing over what the canvas held, which contributes only its dots |
| Textplots.DrawAllIdempotent | src/color_plot/textplots/mod.rs:267-352 | rendering the same shapes and projections again leaves every cell unchanged: dots, char and colour state |
| Textplots.CellKeyWithin | src/color_plot/drawille.rs:67-69 | a dot of a canvas below 2^16 dots falls in cell `(x/2, y/4)`, inside the box `[0, width/2] x [0, height/4]` |
| Textplots.PaintDotsWithin | src/color_plot/drawille.rs:67-91 | painting dots of the canvas adds only cells of that box |
| Textplots.SegmentsWithin | src/color_plot/textplots/mod.rs:302-349 | every stroke that joins points of the canvas, the bars' sides down to `height` included, starts and ends on the canvas |
| Textplots.PaintSegmentsWithin | src/color_plot/textplots/mod.rs:302-349 | painting such strokes adds only cells of the box |
| Textplots.DrawShapeWithin | src/color_plot/textplots/mod.rs:300-350 | drawing one shape whose points lie on the canvas adds only cells of the box, for a scatter plot and for a joined shape |
| Textplots.DrawAllWithin | src/color_plot/textplots/mod.rs:267-352 | with every projected point on the canvas, `figures` adds only cells of the box |
| Textplots.DrawAllFrameSize | src/color_plot/textplots/mod.rs:267-357 | drawing inside the canvas onto cells of the box, such as a new chart's empty canvas, leaves a frame of exactly `height/4 + 1` rows of `width/2 + 1` cells |
| Textplots.DefaultFrameSize | src/color_plot/textplots/mod.rs:122-126 | the default 120 x 60 chart, drawn inside its canvas, shows exactly 16 rows of 61 cells |
| Textplots.Dashes | src/color_plot/textplots/mod.rs:204-205 | `0..n` filtered by `j % 3 == 0`: exactly the multiples of 3 below n, in increasing order, starting at 0 |
| Textplots.ColumnStep | src/color_plot/textplots/mod.rs:204-208 | one more loop step adds the dot `(i, j)` exactly when `j % 3 == 0` |
| Textplots.AcrossStep | src/color_plot/textplots/mod.rs:215-219 | one more loop step adds the dot `(i, y)` exactly when `i % 3 == 0` |
| Textplots.BorderDots | src/color_plot/textplots/mod.rs:191-199 | the dots `borders` sets: the dashed columns 0 and `width`, then the dashed rows `height` and 0 |
| Textplots.VlineDots | src/color_plot/textplots/mod.rs:202-210 | after `vline(i)` a dot is set exactly when it was set before or it is `(i, j)` with `j <= height` and `j % 3 == 0` |
| Textplots.HlineDots | src/color_plot/textplots/mod.rs:213-221 | after `hline` a dot is set exactly when it was set before or it is `(i, height - j)` with `i <= width` and `i % 3 == 0` |
| Textplots.BordersCorners | src/color_plot/textplots/mod.rs:191-199 | the borders always contain the corners `(0, 0)`, `(0, height)` and `(width, 0)` |
| Textplots.Chart.constructor | src/color_plot/textplots/mod.rs:143-153 | the chart fields as given, no shapes, and a fresh empty canvas of the chart's size |
| Textplots.Chart.SizeCheck | src/color_plot/textplots/mod.rs:134-141 | construction fails exactly when width or height is below 32; the width is checked first |
| Textplots.Chart.New | src/color_plot/textplots/mod.rs:134-154 | `new` fails as `SizeCheck` says; otherwise the chart is auto-ranged, with `ymin = +inf`, `ymax = -inf`, no shapes and an empty canvas |
| Textplots.Chart.NewWithYRange | src/color_plot/textplots/mod.rs:161-188 | `new_with_y_range` fails as `SizeCheck` says; otherwise the chart has the fixed range given, no shapes and an empty canvas |
| Textplots.Chart.Default | src/color_plot/textplots/mod.rs:122-126 | the default chart is 120 x 60 dots over `[-10, 10]`, auto-ranged |
| Textplots.Chart.Rescale | src/color_plot/textplots/mod.rs:359-398 | `rescale` sets the range to `Widen` of the old range and the shape's values |
| Textplots.Chart.Lineplot | src/color_plot/textplots/mod.rs:412-418 | `lineplot` appends `(shape, None)`; it widens the range on an auto-ranged chart and leaves a fixed range unchanged |
| Textplots.Chart.Linecolorplot | src/color_plot/textplots/mod.rs:402-408 | `linecolorplot` appends `(shape, Some(color))`; it widens the range on an auto-ranged chart and leaves a fixed range unchanged |
| Textplots.Chart.Vline | src/color_plot/textplots/mod.rs:202-210 | `vline(i)` sets the dashed column of `VlineDots`, or does nothing when `i > width` |
| Textplots.Chart.Hline | src/color_plot/textplots/mod.rs:213-221 | `hline(j)` sets the dashed row `height - j` of `HlineDots`, or does nothing when `j > height` |
| Textplots.Chart.Dash | src/color_plot/textplots/mod.rs:206 | one `set` extends a dashed line by one dot |
| Textplots.Chart.Borders | src/color_plot/textplots/mod.rs:191-199 | `borders` sets `vline(0)`, `vline(width)`, `hline(0)` and `hline(height)`, in that order |
| Textplots.Chart.Axis | src/color_plot/textplots/mod.rs:254-264 | `axis` draws the x = 0 line only when `xmin <= 0 <= xmax`, and the y = 0 line only when `ymin <= 0 <= ymax` |
| Textplots.Chart.Segment | src/color_plot/textplots/mod.rs:306-310 | a stroke uses `line_colored` when a colour was registered and `line` otherwise |
| Textplots.Chart.Window | src/color_plot/textplots/mod.rs:301-350 | a window draws exactly the strokes `PairSegments` lists, in order |
| Textplots.Chart.Step | src/color_plot/textplots/mod.rs:318-331 | a step draws `(x1, y2) -> (x2, y2)` and then `(x1, y1) -> (x1, y2)` |
| Textplots.Chart.Sides | src/color_plot/textplots/mod.rs:332-349 | a bar then draws `(x1, height) -> (x1, y1)` and `(x2, height) -> (x2, y2)` |
| Textplots.Chart.Draw | src/color_plot/textplots/mod.rs:301-350 | one shape is drawn as `DrawShape` says |
| Textplots.Chart.Scatter | src/color_plot/textplots/mod.rs:313-317 | a scatter plot calls plain `set` on each point, in order |
| Textplots.Chart.Connect | src/color_plot/textplots/mod.rs:302-312 | a joined shape draws the strokes of every `windows(2)` window, in order |
| Textplots.Chart.Joint | src/color_plot/textplots/mod.rs:303-310 | a loop step adds the strokes of one window |
| Textplots.Chart.Figures | src/color_plot/textplots/mod.rs:267-352 | `figures` draws every registered shape, in registration order, with its own colour |
| Textplots.Chart.Frame | src/color_plot/textplots/mod.rs:355-357 | the chart's frame is its canvas's frame |

## Left out

- `Scale` and the float projection in `figures` and `rescale`. `linear`, `inv_linear` and `round` are f32 numerics, and `scale.rs` is not part of this model. `figures` takes the projected points as input. The filters after rounding are modelled on integers: `Project` and `ProjectContinuous`.
- A continuous shape is modelled by its values at the chart's sample columns `0..width`, not by the function; `rescale`, `lineplot` and `linecolorplot` require one value per column, and `rescale` reads those values.
- `is_normal` is modelled as "not zero". Infinities, NaN and subnormals are not modelled. `partial_cmp` with NaN is not modelled either, because the model has no NaN.
- The f32 fields are modelled as reals. `ymin` and `ymax` additionally have the two infinities, so `f32::min` and `f32::max` have no rounding.
- The text of `to_string` is not modelled: its labels are float formatting. `display` and `nice` are not modelled: they print to the terminal. `axis` is modelled with the scaled position of 0 as an input.
- The `utils` module (histogram) is not part of this model.
- Colours are opaque tags, and a coloured cell renders as a `Tinted` glyph. The ANSI escape bytes of the colour library are not modelled.
- `src/lib.rs` and `src/main.rs` (plugin glue and the plugin's I/O loop) are not modelled.
- Drawille.Canvas.Line: requires every coordinate below 2^16. Otherwise `i * diff` and the `i32` casts can overflow; that wrap-around is not modelled.
- Drawille.Canvas.LineColored: the same bound as `line`, for the same reason.
- Drawille.Canvas.Stroke: the same bound as `line`, for the same reason.
- Drawille.Canvas.Text: requires that `i * 2` does not overflow `u32` up to the first char it does not place, and that `x + w` does not overflow for the chars it places.
- Drawille.PutTextShows: requires at most 2^16 chars, so that two placed chars never share a cell after u16 truncation.
- Textplots.Chart.Figures: requires width and height below 2^16 and every projected point inside the canvas, because it draws with `line`. This excludes a continuous point wrapped below the canvas by `height - j`.
- Textplots.Chart.Draw: the same bounds as `figures`.
- Textplots.Chart.Connect: the same bounds as `figures`.
- Textplots.Chart.Window: the same bounds as `figures`.
- Textplots.Chart.Segment: the same bound as `line`.
- Textplots.Chart.Step: the same coordinate bound as `Segment`.
- Textplots.Chart.Sides: the same coordinate bound as `Segment`.
- Textplots.ProjectInside: requires a width and height within `u32`, as the chart's are.
- The chart's reference to its shapes is modelled as a sequence of shape values. The borrow from the caller is not modelled.
