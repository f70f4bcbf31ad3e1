/**
 * The integer drawing layer of `Chart` (src/color_plot/textplots/mod.rs): size
 * validation, registration of shapes, widening of the y range, the dashed guide
 * lines, and the way `figures` joins already projected points on the Braille canvas.
 */
module Textplots {
  import opened Wrappers
  import opened Drawille

  /** The smallest chart width and height, in dots, that `new` accepts. */
  const MinSize: nat := 32

  /** The largest `u32`. */
  const U32Max: nat := 0xFFFF_FFFF

  /** How the chart ranges its y axis. */
  datatype RangeMethod = AutoRange | FixedRange

  /** An `f32` bound of the y range; a fresh auto-ranged chart starts at +inf / -inf. */
  datatype Bound = NegInf | Finite(v: real) | PosInf

  /** What `new` and `new_with_y_range` panic with. */
  datatype SizeError = WidthTooSmall(width: nat) | HeightTooSmall(height: nat)

  /**
   * The plotted data. A continuous shape carries the values its function takes
   * at the chart's sample points, one per dot column.
   */
  datatype Shape =
    | Continuous(values: seq<real>)
    | Points(data: seq<(real, real)>)
    | Lines(data: seq<(real, real)>)
    | Steps(data: seq<(real, real)>)
    | Bars(data: seq<(real, real)>)

  /** A stroke from one dot to another, drawn with `line` or `line_colored`. */
  type Segment = (Dot, Dot)

  // ---------------------------------------------------------------------------
  // Bounds of the y range

  predicate Le(a: Bound, b: Bound)
  {
    a.NegInf? || b.PosInf? || (a.Finite? && b.Finite? && a.v <= b.v)
  }

  /** `f32::min` on bounds that are not NaN. */
  function Min(a: Bound, b: Bound): (c: Bound)
    ensures Le(c, a) && Le(c, b) && (c == a || c == b)
  {
    if Le(a, b) then a else b
  }

  /** `f32::max` on bounds that are not NaN. */
  function Max(a: Bound, b: Bound): (c: Bound)
    ensures Le(a, c) && Le(b, c) && (c == a || c == b)
  {
    if Le(a, b) then b else a
  }

  // ---------------------------------------------------------------------------
  // Widening the y range (`rescale`)

  /** `is_normal` on a value that is not NaN, infinite or subnormal: it is not zero. */
  predicate IsNormal(y: real)
  {
    y != 0.0
  }

  /** The samples of a continuous shape that `rescale` keeps. */
  function NormalValues(values: seq<real>): (ys: seq<real>)
    ensures |ys| <= |values|
    ensures forall y :: y in ys <==> y in values && IsNormal(y)
    decreases |values|
  {
    if values == [] then []
    else (if IsNormal(values[0]) then [values[0]] else []) + NormalValues(values[1..])
  }

  /** The y value of every point whose x lies inside `[xmin, xmax]`, in order. */
  function InWindow(data: seq<(real, real)>, xmin: real, xmax: real): (ys: seq<real>)
    ensures |ys| <= |data|
    ensures forall y :: y in ys <==> exists p | p in data :: xmin <= p.0 <= xmax && p.1 == y
    decreases |data|
  {
    if data == [] then []
    else
      var p := data[0];
      var rest := InWindow(data[1..], xmin, xmax);
      assert forall q | q in data :: q == p || q in data[1..];
      (if xmin <= p.0 <= xmax then [p.1] else []) + rest
  }

  /** The values `rescale` collects from a shape. */
  function Ys(s: Shape, xmin: real, xmax: real): seq<real>
  {
    if s.Continuous? then NormalValues(s.values) else InWindow(s.data, xmin, xmax)
  }

  /** `max_by(...).unwrap_or(&0.0)`: the largest value, or 0 when there is none. */
  function MaxOr0(ys: seq<real>): (r: real)
    ensures ys == [] ==> r == 0.0
    ensures ys != [] ==> r in ys && forall y | y in ys :: y <= r
    decreases |ys|
  {
    if |ys| == 0 then 0.0
    else if |ys| == 1 then ys[0]
    else
      var m := MaxOr0(ys[1..]);
      assert forall y | y in ys :: y == ys[0] || y in ys[1..];
      if ys[0] > m then ys[0] else m
  }

  /** `min_by(...).unwrap_or(&0.0)`: the smallest value, or 0 when there is none. */
  function MinOr0(ys: seq<real>): (r: real)
    ensures ys == [] ==> r == 0.0
    ensures ys != [] ==> r in ys && forall y | y in ys :: r <= y
    decreases |ys|
  {
    if |ys| == 0 then 0.0
    else if |ys| == 1 then ys[0]
    else
      var m := MinOr0(ys[1..]);
      assert forall y | y in ys :: y == ys[0] || y in ys[1..];
      if ys[0] < m then ys[0] else m
  }

  /** The range after `rescale` has seen the values `ys`. */
  function Widen(lo: Bound, hi: Bound, ys: seq<real>): (Bound, Bound)
  {
    (Min(lo, Finite(MinOr0(ys))), Max(hi, Finite(MaxOr0(ys))))
  }

  /**
   * Widening only grows the range, and afterwards the range holds every value
   * seen (0 when there was none), while each end is the old end or one of them.
   */
  lemma WidenBounds(lo: Bound, hi: Bound, ys: seq<real>)
    ensures var (lo', hi') := Widen(lo, hi, ys);
      && Le(lo', lo) && Le(hi, hi')
      && (forall y | y in ys :: Le(lo', Finite(y)) && Le(Finite(y), hi'))
      && (ys == [] ==> Le(lo', Finite(0.0)) && Le(Finite(0.0), hi'))
      && (lo' == lo || (lo'.Finite? && (lo'.v in ys || (ys == [] && lo'.v == 0.0))))
      && (hi' == hi || (hi'.Finite? && (hi'.v in ys || (ys == [] && hi'.v == 0.0))))
  {
    var (lo', hi') := Widen(lo, hi, ys);
    forall y | y in ys
      ensures Le(lo', Finite(y)) && Le(Finite(y), hi')
    {
      LeTrans(lo', Finite(MinOr0(ys)), Finite(y));
      LeTrans(Finite(y), Finite(MaxOr0(ys)), hi');
    }
  }

  lemma LeTrans(a: Bound, b: Bound, c: Bound)
    requires Le(a, b) && Le(b, c)
    ensures Le(a, c)
  {
  }

  /** Seeing the same values twice widens no further than seeing them once. */
  lemma WidenIdempotent(lo: Bound, hi: Bound, ys: seq<real>)
    ensures var (lo', hi') := Widen(lo, hi, ys); Widen(lo', hi', ys) == (lo', hi')
  {
  }

  /** The order in which shapes are registered does not change the range. */
  lemma WidenCommutes(lo: Bound, hi: Bound, a: seq<real>, b: seq<real>)
    ensures var (lo1, hi1) := Widen(lo, hi, a);
      var (lo2, hi2) := Widen(lo, hi, b);
      Widen(lo1, hi1, b) == Widen(lo2, hi2, a)
  {
  }

  /** On a fresh auto-ranged chart the first shape sets the range to exactly its smallest and largest value. */
  lemma FirstWiden(ys: seq<real>)
    requires ys != []
    ensures Widen(PosInf, NegInf, ys) == (Finite(MinOr0(ys)), Finite(MaxOr0(ys)))
    ensures forall y | y in ys :: MinOr0(ys) <= y <= MaxOr0(ys)
  {
  }

  // ---------------------------------------------------------------------------
  // Projection of discrete shapes (`figures`, after `Scale`)

  /** Rust's `as u32` on an already rounded `f32`: it saturates at both ends. */
  function Saturate(v: int): (n: nat)
    ensures n <= U32Max
    ensures 0 <= v <= U32Max ==> n == v
    ensures v < 0 ==> n == 0
    ensures v > U32Max ==> n == U32Max
  {
    if v < 0 then 0 else if v > U32Max then U32Max else v
  }

  /** Whether a rounded sample survives the filter of `figures`. */
  predicate Kept(width: nat, height: nat, sample: (int, int))
  {
    Saturate(sample.0) <= width && Saturate(sample.1) <= height
  }

  /** The screen dot of a kept sample: y grows downwards on the canvas. */
  function Screen(height: nat, sample: (int, int)): Dot
    requires Saturate(sample.1) <= height
  {
    (Saturate(sample.0), height - Saturate(sample.1))
  }

  /**
   * The discrete projection: rounded scaled samples `(i, j)` become `(i, height - j)`
   * when `i <= width && j <= height`, and are dropped otherwise.
   */
  function Project(width: nat, height: nat, samples: seq<(int, int)>): (pts: seq<Dot>)
    ensures |pts| <= |samples|
    ensures forall p | p in pts :: p.0 <= width && p.1 <= height
    decreases |samples|
  {
    if samples == [] then []
    else
      var s := samples[0];
      (if Kept(width, height, s) then [Screen(height, s)] else []) + Project(width, height, samples[1..])
  }

  /** A projected dot comes from a kept sample, and every kept sample gives one. */
  lemma {:induction false} ProjectMembers(width: nat, height: nat, samples: seq<(int, int)>)
    ensures forall s | s in samples && Kept(width, height, s) :: Screen(height, s) in Project(width, height, samples)
    ensures forall p | p in Project(width, height, samples) ::
      exists s | s in samples && Kept(width, height, s) :: Screen(height, s) == p
    decreases |samples|
  {
    if samples != [] {
      ProjectMembers(width, height, samples[1..]);
      assert forall s | s in samples :: s == samples[0] || s in samples[1..];
    }
  }

  /** Samples that fall inside the canvas are all kept, in order. */
  lemma {:induction false} ProjectInside(width: nat, height: nat, samples: seq<(int, int)>)
    requires width <= U32Max && height <= U32Max
    requires forall s | s in samples :: 0 <= s.0 <= width && 0 <= s.1 <= height
    ensures |Project(width, height, samples)| == |samples|
    ensures forall k | 0 <= k < |samples| :: Project(width, height, samples)[k] == (samples[k].0, height - samples[k].1)
    decreases |samples|
  {
    if samples != [] {
      var s, rest := samples[0], samples[1..];
      assert forall t | t in rest :: t in samples;
      ProjectInside(width, height, rest);
      assert Kept(width, height, s) && Screen(height, s) == (s.0, height - s.1);
      var p := Project(width, height, samples);
      assert p == [(s.0, height - s.1)] + Project(width, height, rest);
      forall k | 0 <= k < |samples|
        ensures p[k] == (samples[k].0, height - samples[k].1)
      {
        if 0 < k {
          assert rest[k - 1] == samples[k];
        }
      }
    }
  }

  /**
   * A sample left of or below the x and y ranges is not dropped: its negative
   * rounded coordinate saturates to 0 and it is drawn on the left or bottom edge.
   */
  lemma ProjectClampsNegative(width: nat, height: nat, i: int, j: int)
    requires i < 0 && j < 0
    ensures Project(width, height, [(i, j)]) == [(0, height)]
  {
  }

  /** `a - b` on `u32` as a release build computes it: it wraps around below zero. */
  function WrapSub(a: nat, b: nat): (r: nat)
    requires a <= U32Max && b <= U32Max
    ensures r <= U32Max
    ensures b <= a ==> r == a - b
    ensures a < b ==> r == a + (U32Max + 1) - b
  {
    (a - b) % (U32Max + 1)
  }

  /**
   * The continuous projection: column `i` holds `None` when the function's value
   * there is not normal, and the rounded scaled value otherwise; a kept column
   * becomes `(i, height - j as u32)`, with no bound check on `j`.
   */
  function ProjectContinuous(height: nat, rounded: seq<Option<int>>): (pts: seq<Dot>)
    requires height <= U32Max
    ensures |pts| <= |rounded|
    ensures forall k | 0 <= k < |pts| :: pts[k].0 < |rounded|
    ensures forall a, b | 0 <= a < b < |pts| :: pts[a].0 < pts[b].0
    decreases |rounded|
  {
    if rounded == [] then []
    else
      var n := |rounded| - 1;
      var j := rounded[n];
      ProjectContinuous(height, rounded[..n]) + (if j.Some? then [(n, WrapSub(height, Saturate(j.value)))] else [])
  }

  /** Every projected dot comes from a kept column `i` and sits at `(i, height - j)`. */
  lemma {:induction false} ContinuousSource(height: nat, rounded: seq<Option<int>>, k: nat)
    requires height <= U32Max && k < |ProjectContinuous(height, rounded)|
    ensures var p := ProjectContinuous(height, rounded)[k];
      rounded[p.0].Some? && p.1 == WrapSub(height, Saturate(rounded[p.0].value))
    decreases |rounded|
  {
    var n := |rounded| - 1;
    var init := rounded[..n];
    var before := ProjectContinuous(height, init);
    if k < |before| {
      ContinuousSource(height, init, k);
      assert init[before[k].0] == rounded[before[k].0];
    }
  }

  /** Every kept column `i` gives the dot `(i, height - j)`. */
  lemma {:induction false} ContinuousKept(height: nat, rounded: seq<Option<int>>, i: nat)
    requires height <= U32Max && i < |rounded| && rounded[i].Some?
    ensures (i, WrapSub(height, Saturate(rounded[i].value))) in ProjectContinuous(height, rounded)
    decreases |rounded|
  {
    var n := |rounded| - 1;
    var init := rounded[..n];
    var pts := ProjectContinuous(height, rounded);
    var before := ProjectContinuous(height, init);
    var d := (i, WrapSub(height, Saturate(rounded[i].value)));
    assert pts[..|before|] == before;
    if i < n {
      ContinuousKept(height, init, i);
      assert init[i] == rounded[i];
    } else {
      assert pts == before + [d];
    }
  }

  /** A rounded value inside `[0, height]` is drawn at `height - j`, on the canvas. */
  lemma ContinuousInside(height: nat, j: int)
    requires height <= U32Max && 0 <= j <= height
    ensures WrapSub(height, Saturate(j)) == height - j <= height
  {
  }

  /** A rounded value above `height` wraps around to a row far below the canvas. */
  lemma ContinuousAboveWraps(height: nat, j: int)
    requires height <= U32Max && height < j <= U32Max
    ensures WrapSub(height, Saturate(j)) > height
    ensures WrapSub(height, Saturate(j)) == height + (U32Max + 1) - j
  {
  }

  // ---------------------------------------------------------------------------
  // Joining projected points (`figures`)

  /** How many segments each pair of consecutive points yields. */
  function PerPair(s: Shape): nat
    requires !s.Points?
  {
    match s
    case Continuous(_) => 1
    case Lines(_) => 1
    case Steps(_) => 2
    case Bars(_) => 4
  }

  /** The segments `figures` draws for one window `[p1, p2]`, in drawing order. */
  function PairSegments(s: Shape, p1: Dot, p2: Dot, height: nat): (segs: seq<Segment>)
    requires !s.Points?
    ensures |segs| == PerPair(s)
  {
    match s
    case Continuous(_) => [(p1, p2)]
    case Lines(_) => [(p1, p2)]
    case Steps(_) => StepSegments(p1, p2)
    case Bars(_) => StepSegments(p1, p2) + BarSides(p1, p2, height)
  }

  /** A step: across at the height of `p2`, then up or down from `p1`. */
  function StepSegments(p1: Dot, p2: Dot): seq<Segment>
  {
    [((p1.0, p2.1), (p2.0, p2.1)), ((p1.0, p1.1), (p1.0, p2.1))]
  }

  /** What a bar adds to a step: both sides, down to the bottom row `height`. */
  function BarSides(p1: Dot, p2: Dot, height: nat): seq<Segment>
  {
    [((p1.0, height), (p1.0, p1.1)), ((p2.0, height), (p2.0, p2.1))]
  }

  /** The segments of all windows of `points.windows(2)`, window after window. */
  function Segments(s: Shape, pts: seq<Dot>, height: nat): (segs: seq<Segment>)
    requires !s.Points?
    decreases |pts|
  {
    if |pts| <= 1 then []
    else Segments(s, pts[..|pts| - 1], height) + PairSegments(s, pts[|pts| - 2], pts[|pts| - 1], height)
  }

  /** Each window yields `PerPair(s)` segments. */
  lemma {:induction false} SegmentsLength(s: Shape, pts: seq<Dot>, height: nat)
    requires !s.Points?
    ensures |Segments(s, pts, height)| == if |pts| <= 1 then 0 else (|pts| - 1) * PerPair(s)
    decreases |pts|
  {
    if 1 < |pts| {
      var n, c := |pts|, PerPair(s);
      SegmentsLength(s, pts[..n - 1], height);
      assert (n - 1) * c == (n - 2) * c + c;
    }
  }

  /** The windows of `pts[..k + 1]` are those of `pts[..k]` and then `[pts[k - 1], pts[k]]`. */
  lemma SegmentsSnoc(s: Shape, pts: seq<Dot>, k: nat, height: nat)
    requires !s.Points? && 0 < k < |pts|
    ensures Segments(s, pts[..k + 1], height) == Segments(s, pts[..k], height) + PairSegments(s, pts[k - 1], pts[k], height)
  {
    var prefix := pts[..k + 1];
    assert prefix[..|prefix| - 1] == pts[..k];
  }

  /** Segment `t` of window `k` sits at position `k * PerPair(s) + t`. */
  lemma {:induction false} SegmentsAt(s: Shape, pts: seq<Dot>, height: nat, k: nat, t: nat)
    requires !s.Points? && k + 1 < |pts| && t < PerPair(s)
    ensures k * PerPair(s) + t < |Segments(s, pts, height)|
    ensures Segments(s, pts, height)[k * PerPair(s) + t] == PairSegments(s, pts[k], pts[k + 1], height)[t]
    decreases |pts|
  {
    var n := |pts|;
    var c := PerPair(s);
    var init := pts[..n - 1];
    SegmentsLength(s, init, height);
    MulMonotone(k, n - 2, c);
    if k + 2 < n {
      SegmentsAt(s, init, height, k, t);
      assert init[k] == pts[k] && init[k + 1] == pts[k + 1];
    } else {
      assert k == n - 2;
    }
  }

  /** Painting every segment with `line` (no ink) or `line_colored` (ink), in order. */
  function PaintSegments(m: Cells, segs: seq<Segment>, ink: Option<Color>): Cells
    decreases |segs|
  {
    if segs == [] then m
    else
      var (a, b) := segs[|segs| - 1];
      PaintDots(PaintSegments(m, segs[..|segs| - 1], ink), LineDots(a.0, a.1, b.0, b.1), ink)
  }

  lemma {:induction false} PaintSegmentsAppend(m: Cells, a: seq<Segment>, b: seq<Segment>, ink: Option<Color>)
    ensures PaintSegments(m, a + b, ink) == PaintSegments(PaintSegments(m, a, ink), b, ink)
    decreases |b|
  {
    if b == [] {
      assert a + b == a;
    } else {
      assert (a + b)[..|a + b| - 1] == a + b[..|b| - 1] && (a + b)[|a + b| - 1] == b[|b| - 1];
      PaintSegmentsAppend(m, a, b[..|b| - 1], ink);
    }
  }

  /** A dot that is set stays set while segments are painted. */
  lemma {:induction false} PaintSegmentsKeeps(m: Cells, segs: seq<Segment>, ink: Option<Color>, q: Dot)
    requires DotIn(m, q.0, q.1)
    ensures DotIn(PaintSegments(m, segs, ink), q.0, q.1)
    decreases |segs|
  {
    if segs != [] {
      var (a, b) := segs[|segs| - 1];
      PaintSegmentsKeeps(m, segs[..|segs| - 1], ink, q);
      PaintDotsExact(PaintSegments(m, segs[..|segs| - 1], ink), LineDots(a.0, a.1, b.0, b.1), ink, q);
    }
  }

  /** Both ends of every segment are set once the segments are painted. */
  lemma {:induction false} PaintSegmentsEnds(m: Cells, segs: seq<Segment>, ink: Option<Color>, k: nat)
    requires k < |segs|
    ensures DotIn(PaintSegments(m, segs, ink), segs[k].0.0, segs[k].0.1)
    ensures DotIn(PaintSegments(m, segs, ink), segs[k].1.0, segs[k].1.1)
    decreases |segs|
  {
    var init := segs[..|segs| - 1];
    var (a, b) := segs[|segs| - 1];
    var before := PaintSegments(m, init, ink);
    if k == |segs| - 1 {
      LineSetsEndpoints(before, a.0, a.1, b.0, b.1, ink);
    } else {
      PaintSegmentsEnds(m, init, ink, k);
      assert init[k] == segs[k];
      PaintDotsExact(before, LineDots(a.0, a.1, b.0, b.1), ink, segs[k].0);
      PaintDotsExact(before, LineDots(a.0, a.1, b.0, b.1), ink, segs[k].1);
    }
  }

  /** What `figures` does with one shape's projected points. */
  function DrawShape(m: Cells, s: Shape, pts: seq<Dot>, ink: Option<Color>, height: nat): Cells
  {
    if s.Points? then PaintDots(m, pts, None) else PaintSegments(m, Segments(s, pts, height), ink)
  }

  /** `figures`: every registered shape, in registration order, each with its own projected points. */
  function DrawAll(m: Cells, shapes: seq<(Shape, Option<Color>)>, projections: seq<seq<Dot>>, height: nat): Cells
    requires |shapes| == |projections|
    decreases |shapes|
  {
    if shapes == [] then m
    else
      var n := |shapes| - 1;
      DrawShape(DrawAll(m, shapes[..n], projections[..n], height), shapes[n].0, projections[n], shapes[n].1, height)
  }

  /** A scatter plot sets every point and nothing else, and ignores the colour it was registered with. */
  lemma PointsSetEachPoint(m: Cells, data: seq<(real, real)>, pts: seq<Dot>, ink: Option<Color>, height: nat, q: Dot)
    ensures DrawShape(m, Points(data), pts, ink, height) == DrawShape(m, Points(data), pts, None, height)
    ensures DotIn(DrawShape(m, Points(data), pts, ink, height), q.0, q.1) <==>
            DotIn(m, q.0, q.1) || exists k | 0 <= k < |pts| :: SameDot(pts[k], q)
  {
    PaintDotsExact(m, pts, None, q);
  }

  /** A joined shape with fewer than two points draws nothing: `windows(2)` yields no window. */
  lemma JoinedNeedsTwoPoints(m: Cells, s: Shape, pts: seq<Dot>, ink: Option<Color>, height: nat)
    requires !s.Points? && |pts| <= 1
    ensures DrawShape(m, s, pts, ink, height) == m
  {
  }

  /** The first point of a window starts one of its segments, and the second point ends its first segment. */
  lemma WindowEnds(s: Shape, p1: Dot, p2: Dot, height: nat)
    requires !s.Points?
    ensures PairSegments(s, p1, p2, height)[if PerPair(s) == 1 then 0 else 1].0 == p1
    ensures PairSegments(s, p1, p2, height)[0].1 == p2
  {
  }

  /** A joined shape with at least two points sets every one of its points. */
  lemma JoinedSetsEachPoint(m: Cells, s: Shape, pts: seq<Dot>, ink: Option<Color>, height: nat, k: nat)
    requires !s.Points? && 2 <= |pts| && k < |pts|
    ensures DotIn(DrawShape(m, s, pts, ink, height), pts[k].0, pts[k].1)
  {
    if k + 1 < |pts| {
      // pts[k] starts a segment of the window [pts[k], pts[k + 1]].
      var t := if PerPair(s) == 1 then 0 else 1;
      WindowEnds(s, pts[k], pts[k + 1], height);
      SegmentSetsEnds(m, s, pts, ink, height, k, t);
    } else {
      // The last point ends the first segment of the last window.
      WindowEnds(s, pts[k - 1], pts[k], height);
      SegmentSetsEnds(m, s, pts, ink, height, k - 1, 0);
    }
  }

  /** Both ends of segment `t` of window `k` are set once a joined shape is drawn. */
  lemma SegmentSetsEnds(m: Cells, s: Shape, pts: seq<Dot>, ink: Option<Color>, height: nat, k: nat, t: nat)
    requires !s.Points? && k + 1 < |pts| && t < PerPair(s)
    ensures var seg := PairSegments(s, pts[k], pts[k + 1], height)[t];
      DotIn(DrawShape(m, s, pts, ink, height), seg.0.0, seg.0.1) && DotIn(DrawShape(m, s, pts, ink, height), seg.1.0, seg.1.1)
  {
    var segs := Segments(s, pts, height);
    var w := k * PerPair(s) + t;
    SegmentsAt(s, pts, height, k, t);
    PaintSegmentsEnds(m, segs, ink, w);
  }

  /** Every cell a joined shape adds is coloured exactly when a colour was registered. */
  lemma {:induction false} PaintSegmentsInk(m: Cells, segs: seq<Segment>, ink: Option<Color>, key: Key)
    requires key in PaintSegments(m, segs, ink) && key !in m
    ensures CellAt(PaintSegments(m, segs, ink), key).colored == ink.Some?
    ensures CellAt(PaintSegments(m, segs, ink), key).color == (if ink.Some? then ink.value else White)
    decreases |segs|
  {
    var init := segs[..|segs| - 1];
    var (a, b) := segs[|segs| - 1];
    var ds := LineDots(a.0, a.1, b.0, b.1);
    var before := PaintSegments(m, init, ink);
    PaintDotsFrame(before, ds, ink);
    if key in CellsOf(ds) {
      PaintDotsInk(before, ds, ink, key);
    } else {
      PaintSegmentsInk(m, init, ink, key);
    }
  }

  /**
   * Every cell some stroke passes through ends up with the shape's ink and char ' ',
   * whether or not it existed before: the strokes overwrite the colour state of
   * cells other shapes drew.
   */
  lemma {:induction false} PaintSegmentsOverwrites(m: Cells, segs: seq<Segment>, ink: Option<Color>, k: nat, key: Key)
    requires k < |segs| && key in CellsOf(LineDots(segs[k].0.0, segs[k].0.1, segs[k].1.0, segs[k].1.1))
    ensures CellAt(PaintSegments(m, segs, ink), key).colored == ink.Some?
    ensures CellAt(PaintSegments(m, segs, ink), key).color == (if ink.Some? then ink.value else White)
    ensures CellAt(PaintSegments(m, segs, ink), key).ch == ' '
    decreases |segs|
  {
    var n := |segs| - 1;
    var init, last := segs[..n], segs[n];
    var ds := LineDots(last.0.0, last.0.1, last.1.0, last.1.1);
    var before := PaintSegments(m, init, ink);
    assert PaintSegments(m, segs, ink) == PaintDots(before, ds, ink);
    if k == n || key in CellsOf(ds) {
      PaintDotsInk(before, ds, ink, key);
    } else {
      assert CellAt(PaintDots(before, ds, ink), key) == CellAt(before, key) by {
        PaintDotsFrame(before, ds, ink);
      }
      assert init[k] == segs[k];
      PaintSegmentsOverwrites(m, init, ink, k, key);
    }
  }

  /** Drawing a shape never clears a dot. */
  lemma DrawShapeKeeps(m: Cells, s: Shape, pts: seq<Dot>, ink: Option<Color>, height: nat, q: Dot)
    requires DotIn(m, q.0, q.1)
    ensures DotIn(DrawShape(m, s, pts, ink, height), q.0, q.1)
  {
    if s.Points? {
      PaintDotsExact(m, pts, None, q);
    } else {
      PaintSegmentsKeeps(m, Segments(s, pts, height), ink, q);
    }
  }

  /** Drawing one shape sets each of its points, when it is a scatter plot or has at least two points. */
  lemma DrawShapeShows(m: Cells, s: Shape, pts: seq<Dot>, ink: Option<Color>, height: nat, i: nat)
    requires i < |pts| && (s.Points? || 2 <= |pts|)
    ensures DotIn(DrawShape(m, s, pts, ink, height), pts[i].0, pts[i].1)
  {
    if s.Points? {
      PaintDotsHas(m, pts, None, i);
    } else {
      JoinedSetsEachPoint(m, s, pts, ink, height, i);
    }
  }

  /**
   * After `figures`, every projected point of every registered shape is set,
   * whatever was drawn after it, except the lone point of a joined shape.
   */
  lemma {:induction false} FiguresShowEveryPoint(m: Cells, shapes: seq<(Shape, Option<Color>)>, projections: seq<seq<Dot>>,
                                                 height: nat, k: nat, i: nat)
    requires |shapes| == |projections| && k < |shapes| && i < |projections[k]|
    requires shapes[k].0.Points? || 2 <= |projections[k]|
    ensures DotIn(DrawAll(m, shapes, projections, height), projections[k][i].0, projections[k][i].1)
    decreases |shapes|
  {
    var n := |shapes| - 1;
    var before := DrawAll(m, shapes[..n], projections[..n], height);
    if k == n {
      DrawShapeShows(before, shapes[n].0, projections[n], shapes[n].1, height, i);
    } else {
      FiguresShowEveryPoint(m, shapes[..n], projections[..n], height, k, i);
      DrawShapeKeeps(before, shapes[n].0, projections[n], shapes[n].1, height, projections[k][i]);
    }
  }

  // ---------------------------------------------------------------------------
  // Rendering again, and the size of the frame

  /** Painting strokes lays the same drawing over whatever map it starts from. */
  lemma {:induction false} PaintSegmentsOverlay(m: Cells, segs: seq<Segment>, ink: Option<Color>)
    ensures PaintSegments(m, segs, ink) == Overlay(m, PaintSegments(map[], segs, ink))
    decreases |segs|
  {
    if segs == [] {
      assert Overlay(m, map[]) == m;
    } else {
      var init := segs[..|segs| - 1];
      var (a, b) := segs[|segs| - 1];
      var ds := LineDots(a.0, a.1, b.0, b.1);
      var d := PaintSegments(map[], init, ink);
      PaintSegmentsOverlay(m, init, ink);
      PaintDotsOverlay(Overlay(m, d), ds, ink);
      PaintDotsOverlay(d, ds, ink);
      OverlayAssoc(m, d, PaintDots(map[], ds, ink));
    }
  }

  /** Drawing one shape lays the same drawing over whatever map it starts from. */
  lemma DrawShapeOverlay(m: Cells, s: Shape, pts: seq<Dot>, ink: Option<Color>, height: nat)
    ensures DrawShape(m, s, pts, ink, height) == Overlay(m, DrawShape(map[], s, pts, ink, height))
  {
    if s.Points? {
      PaintDotsOverlay(m, pts, None);
    } else {
      PaintSegmentsOverlay(m, Segments(s, pts, height), ink);
    }
  }

  /**
   * `figures` lays the same drawing over whatever the canvas already holds: the
   * canvas is never cleared, and what it held only contributes its dots.
   */
  lemma {:induction false} DrawAllOverlay(m: Cells, shapes: seq<(Shape, Option<Color>)>, projections: seq<seq<Dot>>, height: nat)
    requires |shapes| == |projections|
    ensures DrawAll(m, shapes, projections, height) == Overlay(m, DrawAll(map[], shapes, projections, height))
    decreases |shapes|
  {
    if shapes == [] {
      assert Overlay(m, map[]) == m;
    } else {
      var n := |shapes| - 1;
      var (s, ink) := shapes[n];
      var d := DrawAll(map[], shapes[..n], projections[..n], height);
      DrawAllOverlay(m, shapes[..n], projections[..n], height);
      DrawShapeOverlay(Overlay(m, d), s, projections[n], ink, height);
      DrawShapeOverlay(d, s, projections[n], ink, height);
      OverlayAssoc(m, d, DrawShape(map[], s, projections[n], ink, height));
    }
  }

  /**
   * Running `figures` a second time on the canvas it left, with the same shapes and
   * projections, changes no cell: not its dots, its char or its colour state.
   */
  lemma DrawAllIdempotent(m: Cells, shapes: seq<(Shape, Option<Color>)>, projections: seq<seq<Dot>>, height: nat)
    requires |shapes| == |projections|
    ensures DrawAll(DrawAll(m, shapes, projections, height), shapes, projections, height) == DrawAll(m, shapes, projections, height)
  {
    var once := DrawAll(m, shapes, projections, height);
    DrawAllOverlay(m, shapes, projections, height);
    DrawAllOverlay(once, shapes, projections, height);
    OverlayTwice(m, DrawAll(map[], shapes, projections, height));
  }

  /** The dot lies on a canvas of `width` x `height` dots. */
  predicate OnCanvas(p: Dot, width: nat, height: nat)
  {
    p.0 <= width && p.1 <= height
  }

  /** Every cell of the map lies in the cell box `[0, width / 2] x [0, height / 4]` of such a canvas. */
  predicate KeysWithin(m: Cells, width: nat, height: nat)
  {
    forall k | k in m :: k.0 <= width / 2 && k.1 <= height / 4
  }

  /** A dot on the canvas falls in a cell of its box. */
  lemma CellKeyWithin(p: Dot, width: nat, height: nat)
    requires width < U16 && height < U16 && OnCanvas(p, width, height)
    ensures CellKey(p.0, p.1) == (p.0 / 2, p.1 / 4)
    ensures CellKey(p.0, p.1).0 <= width / 2 && CellKey(p.0, p.1).1 <= height / 4
  {
    DivMonotone(p.0, width, 2);
    DivMonotone(p.1, height, 4);
  }

  /** Painting dots of the canvas adds only cells of its box. */
  lemma PaintDotsWithin(m: Cells, ds: seq<Dot>, ink: Option<Color>, width: nat, height: nat)
    requires width < U16 && height < U16 && KeysWithin(m, width, height)
    requires forall k | 0 <= k < |ds| :: OnCanvas(ds[k], width, height)
    ensures KeysWithin(PaintDots(m, ds, ink), width, height)
  {
    PaintDotsFrame(m, ds, ink);
    forall key | key in CellsOf(ds)
      ensures key.0 <= width / 2 && key.1 <= height / 4
    {
      var k :| 0 <= k < |ds| && CellKey(ds[k].0, ds[k].1) == key;
      CellKeyWithin(ds[k], width, height);
    }
  }

  /** Both ends of a stroke lie on the canvas. */
  predicate SegmentWithin(seg: Segment, width: nat, height: nat)
  {
    OnCanvas(seg.0, width, height) && OnCanvas(seg.1, width, height)
  }

  /** The strokes joining points of the canvas start and end on the canvas, bars included. */
  lemma {:induction false} SegmentsWithin(s: Shape, pts: seq<Dot>, width: nat, height: nat)
    requires !s.Points? && forall p | p in pts :: OnCanvas(p, width, height)
    ensures forall k | 0 <= k < |Segments(s, pts, height)| :: SegmentWithin(Segments(s, pts, height)[k], width, height)
    decreases |pts|
  {
    if 1 < |pts| {
      var n := |pts|;
      var init := pts[..n - 1];
      assert forall p | p in init :: p in pts;
      SegmentsWithin(s, init, width, height);
      assert pts[n - 2] in pts && pts[n - 1] in pts;
    }
  }

  /** Painting strokes that start and end on the canvas adds only cells of its box. */
  lemma {:induction false} PaintSegmentsWithin(m: Cells, segs: seq<Segment>, ink: Option<Color>, width: nat, height: nat)
    requires width < U16 && height < U16 && KeysWithin(m, width, height)
    requires forall k | 0 <= k < |segs| :: SegmentWithin(segs[k], width, height)
    ensures KeysWithin(PaintSegments(m, segs, ink), width, height)
    decreases |segs|
  {
    if segs != [] {
      var init := segs[..|segs| - 1];
      var (a, b) := segs[|segs| - 1];
      assert forall k | 0 <= k < |init| :: init[k] == segs[k];
      PaintSegmentsWithin(m, init, ink, width, height);
      LineInBox(a.0, a.1, b.0, b.1);
      PaintDotsWithin(PaintSegments(m, init, ink), LineDots(a.0, a.1, b.0, b.1), ink, width, height);
    }
  }

  /** Drawing one shape whose points lie on the canvas adds only cells of its box. */
  lemma DrawShapeWithin(m: Cells, s: Shape, pts: seq<Dot>, ink: Option<Color>, width: nat, height: nat)
    requires width < U16 && height < U16 && KeysWithin(m, width, height)
    requires forall p | p in pts :: p.0 <= width && p.1 <= height
    ensures KeysWithin(DrawShape(m, s, pts, ink, height), width, height)
  {
    if s.Points? {
      assert forall k | 0 <= k < |pts| :: pts[k] in pts;
      PaintDotsWithin(m, pts, None, width, height);
    } else {
      SegmentsWithin(s, pts, width, height);
      PaintSegmentsWithin(m, Segments(s, pts, height), ink, width, height);
    }
  }

  /**
   * With every projected point on the canvas, as `Chart::figures` demands here,
   * drawing adds only cells of the canvas's box.
   */
  lemma {:induction false} DrawAllWithin(m: Cells, shapes: seq<(Shape, Option<Color>)>, projections: seq<seq<Dot>>,
                                         width: nat, height: nat)
    requires |shapes| == |projections| && width < U16 && height < U16 && KeysWithin(m, width, height)
    requires forall k, p | 0 <= k < |projections| && p in projections[k] :: p.0 <= width && p.1 <= height
    ensures KeysWithin(DrawAll(m, shapes, projections, height), width, height)
    decreases |shapes|
  {
    if shapes != [] {
      var n := |shapes| - 1;
      var init, pts := projections[..n], projections[n];
      var before := DrawAll(m, shapes[..n], init, height);
      assert KeysWithin(before, width, height) by {
        assert forall k | 0 <= k < |init| :: init[k] == projections[k];
        DrawAllWithin(m, shapes[..n], init, width, height);
      }
      assert KeysWithin(DrawShape(before, shapes[n].0, pts, shapes[n].1, height), width, height) by {
        assert forall p | p in pts :: p.0 <= width && p.1 <= height;
        DrawShapeWithin(before, shapes[n].0, pts, shapes[n].1, width, height);
      }
    }
  }

  /**
   * Drawing inside the canvas onto a canvas whose cells lie in its box, such as
   * the empty canvas of a new chart, leaves a frame of exactly `height / 4 + 1`
   * rows of `width / 2 + 1` cells: the nominal size of `Canvas::new(width, height)`.
   */
  lemma DrawAllFrameSize(m: Cells, shapes: seq<(Shape, Option<Color>)>, projections: seq<seq<Dot>>, width: nat, height: nat)
    requires |shapes| == |projections| && width < U16 && height < U16 && KeysWithin(m, width, height)
    requires forall k, p | 0 <= k < |projections| && p in projections[k] :: p.0 <= width && p.1 <= height
    ensures var g := Grid(DrawAll(m, shapes, projections, height), width / 2, height / 4);
      |g| == height / 4 + 1 && forall y | 0 <= y < |g| :: |g[y]| == width / 2 + 1
  {
    var d := DrawAll(m, shapes, projections, height);
    DrawAllWithin(m, shapes, projections, width, height);
    GridShape(d, width / 2, height / 4);
  }

  /** The default 120 x 60 chart shows 16 rows of 61 cells, whatever it draws inside the canvas. */
  lemma DefaultFrameSize(shapes: seq<(Shape, Option<Color>)>, projections: seq<seq<Dot>>)
    requires |shapes| == |projections|
    requires forall k, p | 0 <= k < |projections| && p in projections[k] :: p.0 <= 120 && p.1 <= 60
    ensures var g := Grid(DrawAll(map[], shapes, projections, 60), 60, 15);
      |g| == 16 && forall y | 0 <= y < |g| :: |g[y]| == 61
  {
    var empty: Cells := map[];
    assert KeysWithin(empty, 120, 60);
    assert 120 / 2 == 60 && 60 / 4 == 15;
    DrawAllFrameSize(empty, shapes, projections, 120, 60);
  }

  // ---------------------------------------------------------------------------
  // Dashed guide lines

  /** `0..n` filtered by `j % 3 == 0`, in increasing order. */
  function Dashes(n: nat): (ds: seq<nat>)
    ensures forall k | 0 <= k < |ds| :: ds[k] < n && ds[k] % 3 == 0
    ensures forall v: nat | v < n && v % 3 == 0 :: v in ds
    ensures forall a, b | 0 <= a < b < |ds| :: ds[a] < ds[b]
    ensures 0 < n ==> 0 < |ds| && ds[0] == 0
    decreases n
  {
    if n == 0 then []
    else Dashes(n - 1) + (if (n - 1) % 3 == 0 then [n - 1] else [])
  }

  /** The column over `Dashes(n + 1)` extends the one over `Dashes(n)` by `(x, n)` exactly when `n` is a multiple of 3. */
  lemma ColumnStep(x: nat, n: nat)
    ensures Column(x, Dashes(n + 1)) == if n % 3 == 0 then Column(x, Dashes(n)) + [(x, n)] else Column(x, Dashes(n))
  {
  }

  /** The row over `Dashes(n + 1)` extends the one over `Dashes(n)` by `(n, y)` exactly when `n` is a multiple of 3. */
  lemma AcrossStep(n: nat, y: nat)
    ensures Across(Dashes(n + 1), y) == if n % 3 == 0 then Across(Dashes(n), y) + [(n, y)] else Across(Dashes(n), y)
  {
  }

  /** The dots `(x, y)` for `y` in `ys`. */
  function Column(x: nat, ys: seq<nat>): seq<Dot>
  {
    seq(|ys|, k requires 0 <= k < |ys| => (x, ys[k]))
  }

  /** The dots `(x, y)` for `x` in `xs`. */
  function Across(xs: seq<nat>, y: nat): seq<Dot>
  {
    seq(|xs|, k requires 0 <= k < |xs| => (xs[k], y))
  }

  /** The dots `borders` sets: `vline(0)`, `vline(width)`, `hline(0)`, `hline(height)`. */
  function BorderDots(width: nat, height: nat): seq<Dot>
  {
    var down, across := Dashes(height + 1), Dashes(width + 1);
    Column(0, down) + Column(width, down) + Across(across, height) + Across(across, 0)
  }

  /** After a dashed vertical line at x = i the set dots are the old ones and every third dot of the column. */
  lemma VlineDots(m: Cells, i: nat, height: nat, q: Dot)
    ensures DotIn(PaintDots(m, Column(i, Dashes(height + 1)), None), q.0, q.1) <==>
            DotIn(m, q.0, q.1) || exists j: nat | j <= height && j % 3 == 0 :: SameDot((i, j), q)
  {
    var ys := Dashes(height + 1);
    var ds := Column(i, ys);
    PaintDotsExact(m, ds, None, q);
    if exists j: nat | j <= height && j % 3 == 0 :: SameDot((i, j), q) {
      var j: nat :| j <= height && j % 3 == 0 && SameDot((i, j), q);
      assert j in ys;
      var k :| 0 <= k < |ys| && ys[k] == j;
      assert SameDot(ds[k], q);
    }
    if exists k | 0 <= k < |ds| :: SameDot(ds[k], q) {
      var k :| 0 <= k < |ds| && SameDot(ds[k], q);
      assert ys[k] in ys;
      assert SameDot((i, ys[k]), q);
    }
  }

  /** After a dashed horizontal line at y = height - j the set dots are the old ones and every third dot of the row. */
  lemma HlineDots(m: Cells, width: nat, y: nat, q: Dot)
    ensures DotIn(PaintDots(m, Across(Dashes(width + 1), y), None), q.0, q.1) <==>
            DotIn(m, q.0, q.1) || exists i: nat | i <= width && i % 3 == 0 :: SameDot((i, y), q)
  {
    var xs := Dashes(width + 1);
    var ds := Across(xs, y);
    PaintDotsExact(m, ds, None, q);
    if exists i: nat | i <= width && i % 3 == 0 :: SameDot((i, y), q) {
      var i: nat :| i <= width && i % 3 == 0 && SameDot((i, y), q);
      assert i in xs;
      var k :| 0 <= k < |xs| && xs[k] == i;
      assert SameDot(ds[k], q);
    }
    if exists k | 0 <= k < |ds| :: SameDot(ds[k], q) {
      var k :| 0 <= k < |ds| && SameDot(ds[k], q);
      assert xs[k] in xs;
      assert SameDot((xs[k], y), q);
    }
  }

  /** The borders always hold the corners (0, 0), (0, height) and (width, 0). */
  lemma BordersCorners(m: Cells, width: nat, height: nat)
    ensures var after := PaintDots(m, BorderDots(width, height), None);
      DotIn(after, 0, 0) && DotIn(after, 0, height) && DotIn(after, width, 0)
  {
    var b := BorderDots(width, height);
    var n := |Dashes(height + 1)|;
    assert b[0] == (0, 0) && b[n] == (width, 0) && b[2 * n] == (0, height);
    PaintDotsHas(m, b, None, 0);
    PaintDotsHas(m, b, None, n);
    PaintDotsHas(m, b, None, 2 * n);
  }

  // ---------------------------------------------------------------------------
  // The chart

  class Chart {
    /** Canvas width and height in dots. */
    const width: u32
    const height: u32
    /** The x range. */
    const xmin: real
    const xmax: real
    /** The y range; `rescale` widens it on an auto-ranged chart. */
    var ymin: Bound
    var ymax: Bound
    const ranging: RangeMethod
    /** The registered shapes with their colours, in registration order. */
    var shapes: seq<(Shape, Option<Color>)>
    /** The Braille canvas the chart draws on. */
    const canvas: Canvas

    /** The fields `new` and `new_with_y_range` build; the size has been checked. */
    constructor (width: u32, height: u32, xmin: real, xmax: real, ymin: Bound, ymax: Bound, ranging: RangeMethod)
      requires MinSize <= width && MinSize <= height
      ensures this.width == width && this.height == height
      ensures this.xmin == xmin && this.xmax == xmax && this.ymin == ymin && this.ymax == ymax
      ensures this.ranging == ranging && shapes == []
      ensures fresh(canvas) && canvas.chars == map[]
      ensures canvas.width == (width / 2) % U16 && canvas.height == (height / 4) % U16
    {
      this.width := width;
      this.height := height;
      this.xmin := xmin;
      this.xmax := xmax;
      this.ymin := ymin;
      this.ymax := ymax;
      this.ranging := ranging;
      shapes := [];
      canvas := new Canvas(width, height);
    }

    /** The size check of `new`: the width is checked first. */
    static function SizeCheck(width: u32, height: u32): (e: Option<SizeError>)
      ensures e.None? <==> MinSize <= width && MinSize <= height
      ensures width < MinSize ==> e == Some(WidthTooSmall(width))
      ensures MinSize <= width && height < MinSize ==> e == Some(HeightTooSmall(height))
    {
      if width < MinSize then Some(WidthTooSmall(width))
      else if height < MinSize then Some(HeightTooSmall(height))
      else None
    }

    /** `new(width, height, xmin, xmax)`: an auto-ranged chart whose y range starts empty. */
    static method New(width: u32, height: u32, xmin: real, xmax: real) returns (r: Result<Chart, SizeError>)
      ensures r.Err? <==> SizeCheck(width, height).Some?
      ensures r.Err? ==> r.error == SizeCheck(width, height).value
      ensures r.Ok? ==> fresh(r.value) && fresh(r.value.canvas)
      ensures r.Ok? ==> var c := r.value;
        && c.width == width && c.height == height && c.xmin == xmin && c.xmax == xmax
        && c.ymin == PosInf && c.ymax == NegInf && c.ranging == AutoRange && c.shapes == []
        && c.canvas.chars == map[] && c.canvas.width == (width / 2) % U16 && c.canvas.height == (height / 4) % U16
    {
      var e := SizeCheck(width, height);
      if e.Some? {
        return Err(e.value);
      }
      var c := new Chart(width, height, xmin, xmax, PosInf, NegInf, AutoRange);
      r := Ok(c);
    }

    /** `new_with_y_range(width, height, xmin, xmax, ymin, ymax)`: a chart with a fixed y range. */
    static method NewWithYRange(width: u32, height: u32, xmin: real, xmax: real, ymin: real, ymax: real)
      returns (r: Result<Chart, SizeError>)
      ensures r.Err? <==> SizeCheck(width, height).Some?
      ensures r.Err? ==> r.error == SizeCheck(width, height).value
      ensures r.Ok? ==> fresh(r.value) && fresh(r.value.canvas)
      ensures r.Ok? ==> var c := r.value;
        && c.width == width && c.height == height && c.xmin == xmin && c.xmax == xmax
        && c.ymin == Finite(ymin) && c.ymax == Finite(ymax) && c.ranging == FixedRange && c.shapes == []
        && c.canvas.chars == map[] && c.canvas.width == (width / 2) % U16 && c.canvas.height == (height / 4) % U16
    {
      var e := SizeCheck(width, height);
      if e.Some? {
        return Err(e.value);
      }
      var c := new Chart(width, height, xmin, xmax, Finite(ymin), Finite(ymax), FixedRange);
      r := Ok(c);
    }

    /** `Chart::default()`: `new(120, 60, -10.0, 10.0)`, which passes the size check. */
    static method Default() returns (c: Chart)
      ensures fresh(c) && fresh(c.canvas)
      ensures c.width == 120 && c.height == 60 && c.xmin == -10.0 && c.xmax == 10.0
      ensures c.ymin == PosInf && c.ymax == NegInf && c.ranging == AutoRange && c.shapes == []
      ensures c.canvas.chars == map[] && c.canvas.width == 60 && c.canvas.height == 15
    {
      var r := New(120, 60, -10.0, 10.0);
      c := r.value;
    }

    /** `rescale(shape)`: widen the y range by the values the shape shows inside the x range. */
    method Rescale(s: Shape)
      requires s.Continuous? ==> |s.values| == width
      modifies this`ymin, this`ymax
      ensures (ymin, ymax) == Widen(old(ymin), old(ymax), Ys(s, xmin, xmax))
    {
      var ys := Ys(s, xmin, xmax);
      var hi := MaxOr0(ys);
      var lo := MinOr0(ys);
      ymin := Min(ymin, Finite(lo));
      ymax := Max(ymax, Finite(hi));
    }

    /** `lineplot(shape)`: register the shape without colour; an auto-ranged chart widens its range. */
    method Lineplot(s: Shape)
      requires s.Continuous? ==> |s.values| == width
      modifies this`shapes, this`ymin, this`ymax
      ensures shapes == old(shapes) + [(s, None)]
      ensures ranging == AutoRange ==> (ymin, ymax) == Widen(old(ymin), old(ymax), Ys(s, xmin, xmax))
      ensures ranging == FixedRange ==> ymin == old(ymin) && ymax == old(ymax)
    {
      shapes := shapes + [(s, None)];
      if ranging == AutoRange {
        Rescale(s);
      }
    }

    /** `linecolorplot(shape, color)`: as `lineplot`, with the colour registered beside the shape. */
    method Linecolorplot(s: Shape, color: Color)
      requires s.Continuous? ==> |s.values| == width
      modifies this`shapes, this`ymin, this`ymax
      ensures shapes == old(shapes) + [(s, Some(color))]
      ensures ranging == AutoRange ==> (ymin, ymax) == Widen(old(ymin), old(ymax), Ys(s, xmin, xmax))
      ensures ranging == FixedRange ==> ymin == old(ymin) && ymax == old(ymax)
    {
      shapes := shapes + [(s, Some(color))];
      if ranging == AutoRange {
        Rescale(s);
      }
    }

    /** `vline(i)`: every third dot of column i, from the top row down to `height`; nothing when `i > width`. */
    method Vline(i: u32)
      modifies canvas`chars
      ensures canvas.chars == if i <= width then PaintDots(old(canvas.chars), Column(i, Dashes(height + 1)), None)
                              else old(canvas.chars)
    {
      if i <= width {
        ghost var m := canvas.chars;
        for j := 0 to height + 1
          invariant canvas.chars == PaintDots(m, Column(i, Dashes(j)), None)
        {
          ColumnStep(i, j);
          if j % 3 == 0 {
            Dash(m, Column(i, Dashes(j)), i, j);
          }
        }
      }
    }

    /** `hline(j)`: every third dot of the row `height - j`; nothing when `j > height`. */
    method Hline(j: u32)
      modifies canvas`chars
      ensures canvas.chars == if j <= height then PaintDots(old(canvas.chars), Across(Dashes(width + 1), height - j), None)
                              else old(canvas.chars)
    {
      if j <= height {
        ghost var m := canvas.chars;
        var y: u32 := height - j;
        for i := 0 to width + 1
          invariant canvas.chars == PaintDots(m, Across(Dashes(i), y), None)
        {
          AcrossStep(i, y);
          if i % 3 == 0 {
            Dash(m, Across(Dashes(i), y), i, y);
          }
        }
      }
    }

    /** One dash of a guide line: `set(x, y)` after the dots `done`. */
    method Dash(ghost m: Cells, ghost done: seq<Dot>, x: u32, y: u32)
      requires canvas.chars == PaintDots(m, done, None)
      modifies canvas`chars
      ensures canvas.chars == PaintDots(m, done + [(x, y)], None)
    {
      canvas.Set(x, y);
      PaintDotsSnoc(m, done, (x, y), None);
    }

    /** `borders`: the bounding rectangle as four dashed lines. */
    method Borders()
      modifies canvas`chars
      ensures canvas.chars == PaintDots(old(canvas.chars), BorderDots(width, height), None)
    {
      var w: nat, h: nat := width, height;
      ghost var m := canvas.chars;
      var down, across := Dashes(h + 1), Dashes(w + 1);
      Vline(0);
      Vline(w);
      PaintDotsAppend(m, Column(0, down), Column(w, down), None);
      Hline(0);
      PaintDotsAppend(m, Column(0, down) + Column(w, down), Across(across, h), None);
      Hline(h);
      PaintDotsAppend(m, Column(0, down) + Column(w, down) + Across(across, h), Across(across, 0), None);
    }

    /**
     * `axis`: the dashed x = 0 and y = 0 guide lines, each drawn only when 0 lies in its range.
     * `zeroCol` and `zeroRow` are the scaled positions of 0, truncated towards zero.
     */
    method Axis(zeroCol: int, zeroRow: int)
      modifies canvas`chars
      ensures var afterV := if xmin <= 0.0 <= xmax && Saturate(zeroCol) <= width
                            then PaintDots(old(canvas.chars), Column(Saturate(zeroCol), Dashes(height + 1)), None)
                            else old(canvas.chars);
        canvas.chars == if Le(ymin, Finite(0.0)) && Le(Finite(0.0), ymax) && Saturate(zeroRow) <= height
                        then PaintDots(afterV, Across(Dashes(width + 1), height - Saturate(zeroRow)), None)
                        else afterV
    {
      if xmin <= 0.0 && xmax >= 0.0 {
        Vline(Saturate(zeroCol));
      }
      if Le(ymin, Finite(0.0)) && Le(Finite(0.0), ymax) {
        Hline(Saturate(zeroRow));
      }
    }

    /** One stroke of `figures`: `line_colored` when a colour was registered, `line` otherwise. */
    method Segment(ghost m: Cells, ghost done: seq<Segment>, seg: Segment, ink: Option<Color>)
      requires seg.0.0 < U16 && seg.0.1 < U16 && seg.1.0 < U16 && seg.1.1 < U16
      requires canvas.chars == PaintSegments(m, done, ink)
      modifies canvas`chars
      ensures canvas.chars == PaintSegments(m, done + [seg], ink)
    {
      var ((x1, y1), (x2, y2)) := seg;
      if ink.Some? {
        canvas.LineColored(x1, y1, x2, y2, ink.value);
      } else {
        canvas.Line(x1, y1, x2, y2);
      }
      assert (done + [seg])[..|done|] == done;
    }

    /** The strokes `figures` makes for one window `[p1, p2]` of a joined shape. */
    method Window(s: Shape, p1: Dot, p2: Dot, ink: Option<Color>)
      requires !s.Points? && height < U16
      requires p1.0 < U16 && p1.1 <= height && p2.0 < U16 && p2.1 <= height
      modifies canvas`chars
      ensures canvas.chars == PaintSegments(old(canvas.chars), PairSegments(s, p1, p2, height), ink)
    {
      ghost var m := canvas.chars;
      if s.Continuous? || s.Lines? {
        Segment(m, [], (p1, p2), ink);
        assert [] + [(p1, p2)] == PairSegments(s, p1, p2, height);
      } else if s.Steps? {
        Step(m, p1, p2, ink);
      } else {
        Step(m, p1, p2, ink);
        Sides(m, StepSegments(p1, p2), p1, p2, ink);
      }
    }

    /** The two strokes of a step. */
    method Step(ghost m: Cells, p1: Dot, p2: Dot, ink: Option<Color>)
      requires p1.0 < U16 && p1.1 < U16 && p2.0 < U16 && p2.1 < U16
      requires canvas.chars == m
      modifies canvas`chars
      ensures canvas.chars == PaintSegments(m, StepSegments(p1, p2), ink)
    {
      var a, b := ((p1.0, p2.1), (p2.0, p2.1)), ((p1.0, p1.1), (p1.0, p2.1));
      Segment(m, [], a, ink);
      Segment(m, [] + [a], b, ink);
      assert [] + [a] + [b] == StepSegments(p1, p2);
    }

    /** The two sides a bar adds after its step. */
    method Sides(ghost m: Cells, ghost done: seq<Segment>, p1: Dot, p2: Dot, ink: Option<Color>)
      requires p1.0 < U16 && p1.1 < U16 && p2.0 < U16 && p2.1 < U16 && height < U16
      requires canvas.chars == PaintSegments(m, done, ink)
      modifies canvas`chars
      ensures canvas.chars == PaintSegments(m, done + BarSides(p1, p2, height), ink)
    {
      var h := height;
      var c, d := ((p1.0, h), (p1.0, p1.1)), ((p2.0, h), (p2.0, p2.1));
      Segment(m, done, c, ink);
      Segment(m, done + [c], d, ink);
      assert done + [c] + [d] == done + BarSides(p1, p2, height);
    }

    /** Draw one shape's projected points: a scatter plot sets each point, the other shapes join windows. */
    method Draw(s: Shape, pts: seq<Dot>, ink: Option<Color>)
      requires width < U16 && height < U16
      requires forall p | p in pts :: p.0 <= width && p.1 <= height
      modifies canvas`chars
      ensures canvas.chars == DrawShape(old(canvas.chars), s, pts, ink, height)
    {
      if s.Points? {
        Scatter(pts);
      } else {
        Connect(s, pts, ink);
      }
    }

    /** The `Points` arm of `figures`: `set` on every point, whatever colour was registered. */
    method Scatter(pts: seq<Dot>)
      requires forall p | p in pts :: p.0 <= width && p.1 <= height
      modifies canvas`chars
      ensures canvas.chars == PaintDots(old(canvas.chars), pts, None)
    {
      ghost var m := canvas.chars;
      for k := 0 to |pts|
        invariant canvas.chars == PaintDots(m, pts[..k], None)
      {
        assert pts[k] in pts;
        canvas.Set(pts[k].0, pts[k].1);
        assert pts[..k + 1] == pts[..k] + [pts[k]];
        PaintDotsSnoc(m, pts[..k], pts[k], None);
      }
      assert pts[..|pts|] == pts;
    }

    /** The joined arms of `figures`: the strokes of every window of `points.windows(2)`. */
    method Connect(s: Shape, pts: seq<Dot>, ink: Option<Color>)
      requires !s.Points? && width < U16 && height < U16
      requires forall p | p in pts :: p.0 <= width && p.1 <= height
      modifies canvas`chars
      ensures canvas.chars == PaintSegments(old(canvas.chars), Segments(s, pts, height), ink)
    {
      ghost var m := canvas.chars;
      if pts != [] {
        assert Segments(s, pts[..1], height) == [];
        for k := 1 to |pts|
          invariant canvas.chars == PaintSegments(m, Segments(s, pts[..k], height), ink)
        {
          Joint(m, s, pts, k, ink);
        }
        assert pts[..|pts|] == pts;
      } else {
        assert Segments(s, pts, height) == [];
      }
    }

    /** Window `k` of a joined shape: the strokes between `pts[k - 1]` and `pts[k]`. */
    method Joint(ghost m: Cells, s: Shape, pts: seq<Dot>, k: nat, ink: Option<Color>)
      requires !s.Points? && width < U16 && height < U16 && 0 < k < |pts|
      requires forall p | p in pts :: p.0 <= width && p.1 <= height
      requires canvas.chars == PaintSegments(m, Segments(s, pts[..k], height), ink)
      modifies canvas`chars
      ensures canvas.chars == PaintSegments(m, Segments(s, pts[..k + 1], height), ink)
    {
      ghost var done := Segments(s, pts[..k], height);
      assert pts[k - 1] in pts && pts[k] in pts;
      Window(s, pts[k - 1], pts[k], ink);
      SegmentsSnoc(s, pts, k, height);
      PaintSegmentsAppend(m, done, PairSegments(s, pts[k - 1], pts[k], height), ink);
    }

    /**
     * The drawing half of `figures`: each registered shape, in order, with the
     * points its projection produced (`projections[k]` belongs to `shapes[k]`).
     */
    method Figures(projections: seq<seq<Dot>>)
      requires |projections| == |shapes|
      requires width < U16 && height < U16
      requires forall k, p | 0 <= k < |projections| && p in projections[k] :: p.0 <= width && p.1 <= height
      modifies canvas`chars
      ensures canvas.chars == DrawAll(old(canvas.chars), shapes, projections, height)
    {
      for k := 0 to |shapes|
        invariant canvas.chars == DrawAll(old(canvas.chars), shapes[..k], projections[..k], height)
      {
        var (s, color) := shapes[k];
        Draw(s, projections[k], color);
        assert shapes[..k + 1][..k] == shapes[..k] && projections[..k + 1][..k] == projections[..k];
      }
      assert shapes[..|shapes|] == shapes && projections[..|shapes|] == projections;
    }

    /** `frame`: the canvas's frame. */
    method Frame() returns (frame: seq<Glyph>)
      ensures frame == Join(Grid(canvas.chars, canvas.width, canvas.height))
    {
      frame := canvas.Frame();
    }
  }
}
