/**
 * The Braille canvas: a sparse map from character cells to cell states. Each cell
 * covers 2 x 4 dots; its 8-bit mask uses the dot layout of the Unicode Braille
 * Patterns block (U+2800..U+28FF), so a cell with mask `m` renders as the
 * codepoint 0x2800 + m. A cell can instead hold an override character, and it
 * carries one colour tag for the whole cell.
 *
 * The first half of the module states every canvas operation as a function on
 * the cell map; the class `Canvas` at the end performs the same operations in
 * place and is proved against those functions.
 */
module Drawille {
  import opened Wrappers

  /** The unsigned 32-bit dot coordinates of `Canvas` in drawille.rs. */
  type u32 = n: nat | n < 0x1_0000_0000

  /** Cell coordinates are stored as `u16`: a wider value is truncated modulo this. */
  const U16: nat := 0x1_0000

  /** The terminal palette (`AnsiColors` of the colour library); an opaque tag here. */
  datatype Color =
    | Black | Red | Green | Yellow | Blue | Magenta | Cyan | White | Default
    | BrightBlack | BrightRed | BrightGreen | BrightYellow | BrightBlue
    | BrightMagenta | BrightCyan | BrightWhite

  /** The state of one character cell: dot mask, override char, colour flag, colour. */
  datatype Cell = Cell(mask: bv8, ch: char, colored: bool, color: Color)

  /** The state a cell is created with on first touch, and what an untouched cell reads as. */
  const Blank: Cell := Cell(0, ' ', false, White)

  /** Cell coordinate `(x / 2, y / 4)`; `Canvas::set` in drawille.rs calls the first one `row`. */
  type Key = (nat, nat)

  type Cells = map<Key, Cell>

  /** A dot coordinate `(x, y)`. */
  type Dot = (nat, nat)

  // ---------------------------------------------------------------------------
  // The dot table

  /** `PIXEL_MAP[y % 4][x % 2]`: the bit of its cell that dot (x, y) occupies. */
  const PixelMap: seq<seq<bv8>> := [[0x01, 0x08], [0x02, 0x10], [0x04, 0x20], [0x40, 0x80]]

  /** The bit for dot (x, y): always a single bit. */
  function PixelBit(x: nat, y: nat): (b: bv8)
    ensures b != 0 && b & (b - 1) == 0
  {
    PixelMap[y % 4][x % 2]
  }

  /** Dots (x, y) and (x', y') occupy the same position within their cells. */
  predicate SameBit(x: nat, y: nat, x': nat, y': nat)
  {
    x % 2 == x' % 2 && y % 4 == y' % 4
  }

  /** The eight table entries are distinct single bits: two dots share a bit exactly when they share a position. */
  lemma PixelBitsDistinct(x: nat, y: nat, x': nat, y': nat)
    ensures PixelBit(x, y) & PixelBit(x', y') != 0 <==> SameBit(x, y, x', y')
    ensures PixelBit(x, y) == PixelBit(x', y') <==> SameBit(x, y, x', y')
  {
    var i, j, i', j' := x % 2, y % 4, x' % 2, y' % 4;
    assert i < 2 && i' < 2 && j < 4 && j' < 4;
  }

  /** Together the eight dots fill the whole byte, so every mask 0x00..0xFF is reachable. */
  lemma PixelMapFillsByte()
    ensures PixelBit(0, 0) | PixelBit(1, 0) | PixelBit(0, 1) | PixelBit(1, 1)
          | PixelBit(0, 2) | PixelBit(1, 2) | PixelBit(0, 3) | PixelBit(1, 3) == 0xFF
  {
  }

  // ---------------------------------------------------------------------------
  // Cells and dots on the cell map

  /** The cell holding dot (x, y), with the `as u16` truncation of `Canvas::set`. */
  function CellKey(x: nat, y: nat): Key
  {
    ((x / 2) % U16, (y / 4) % U16)
  }

  /** Two dot coordinates address the same dot of the same cell. */
  predicate SameDot(p: Dot, q: Dot)
  {
    CellKey(p.0, p.1) == CellKey(q.0, q.1) && SameBit(p.0, p.1, q.0, q.1)
  }

  /** The stored cell, or the blank cell when the key was never touched. */
  function CellAt(m: Cells, k: Key): Cell
  {
    if k in m then m[k] else Blank
  }

  /** `get(x, y)`: the dot is set in the stored mask; an untouched cell reads false. */
  predicate DotIn(m: Cells, x: nat, y: nat)
  {
    var k := CellKey(x, y);
    k in m && m[k].mask & PixelBit(x, y) != 0
  }

  /**
   * `set(x, y)` (ink None) and `set_colored(x, y, c)` (ink Some(c)): OR the dot's bit
   * into its cell and overwrite the whole cell's char with ' ' and its colour state
   * with the ink, whatever earlier dots of the cell had.
   */
  function Paint(m: Cells, x: nat, y: nat, ink: Option<Color>): (r: Cells)
    ensures DotIn(r, x, y)
    ensures r.Keys == m.Keys + {CellKey(x, y)}
    ensures forall k | k != CellKey(x, y) :: CellAt(r, k) == CellAt(m, k)
    ensures CellAt(r, CellKey(x, y)).ch == ' '
    ensures CellAt(r, CellKey(x, y)).colored <==> ink.Some?
    ensures CellAt(r, CellKey(x, y)).color == if ink.Some? then ink.value else White
  {
    var k, b := CellKey(x, y), PixelBit(x, y);
    var c := CellAt(m, k);
    var painted := Cell(c.mask | b, ' ', ink.Some?, if ink.Some? then ink.value else White);
    m[k := painted]
  }

  /** `set_char(x, y, c)`: the cell loses all its dots and shows `c`, uncoloured. */
  function PutChar(m: Cells, x: nat, y: nat, c: char): (r: Cells)
    ensures CellAt(r, CellKey(x, y)) == Cell(0, c, false, White)
    ensures forall x', y' | CellKey(x', y') == CellKey(x, y) :: !DotIn(r, x', y')
    ensures r.Keys == m.Keys + {CellKey(x, y)}
    ensures forall k | k != CellKey(x, y) :: CellAt(r, k) == CellAt(m, k)
  {
    m[CellKey(x, y) := Cell(0, c, false, White)]
  }

  /** `unset(x, y)`: clear the dot's bit only; char and colour state stay as they were. */
  function Erase(m: Cells, x: nat, y: nat): (r: Cells)
    ensures !DotIn(r, x, y)
    ensures r.Keys == m.Keys + {CellKey(x, y)}
    ensures forall k | k != CellKey(x, y) :: CellAt(r, k) == CellAt(m, k)
    ensures CellAt(r, CellKey(x, y)).(mask := 0) == CellAt(m, CellKey(x, y)).(mask := 0)
  {
    var k := CellKey(x, y);
    var c := CellAt(m, k);
    m[k := c.(mask := c.mask & !PixelBit(x, y))]
  }

  /** `toggle(x, y)`: flip the dot's bit only. */
  function Flip(m: Cells, x: nat, y: nat): (r: Cells)
    ensures DotIn(r, x, y) <==> !DotIn(m, x, y)
    ensures r.Keys == m.Keys + {CellKey(x, y)}
    ensures forall k | k != CellKey(x, y) :: CellAt(r, k) == CellAt(m, k)
    ensures CellAt(r, CellKey(x, y)).(mask := 0) == CellAt(m, CellKey(x, y)).(mask := 0)
  {
    var k := CellKey(x, y);
    var c := CellAt(m, k);
    m[k := c.(mask := c.mask ^ PixelBit(x, y))]
  }

  /** After painting dot p, a dot q is set exactly when it was set before or it is p. */
  lemma PaintSetsOneDot(m: Cells, p: Dot, ink: Option<Color>, q: Dot)
    ensures DotIn(Paint(m, p.0, p.1, ink), q.0, q.1) <==> DotIn(m, q.0, q.1) || SameDot(p, q)
  {
    PixelBitsDistinct(p.0, p.1, q.0, q.1);
  }

  /** After erasing dot p, a dot q is set exactly when it was set before and it is not p. */
  lemma EraseClearsOneDot(m: Cells, p: Dot, q: Dot)
    ensures DotIn(Erase(m, p.0, p.1), q.0, q.1) <==> DotIn(m, q.0, q.1) && !SameDot(p, q)
  {
    PixelBitsDistinct(p.0, p.1, q.0, q.1);
  }

  /** Toggling dot p flips p and no other dot. */
  lemma FlipChangesOneDot(m: Cells, p: Dot, q: Dot)
    ensures DotIn(Flip(m, p.0, p.1), q.0, q.1) <==> (DotIn(m, q.0, q.1) != SameDot(p, q))
  {
    PixelBitsDistinct(p.0, p.1, q.0, q.1);
  }

  /** Toggling twice restores every cell; the map itself is unchanged unless the toggle created the cell. */
  lemma FlipTwice(m: Cells, x: nat, y: nat)
    ensures forall k :: CellAt(Flip(Flip(m, x, y), x, y), k) == CellAt(m, k)
    ensures CellKey(x, y) in m ==> Flip(Flip(m, x, y), x, y) == m
    ensures Flip(Flip(m, x, y), x, y) == m[CellKey(x, y) := CellAt(m, CellKey(x, y))]
  {
    var k := CellKey(x, y);
    var c := CellAt(m, k);
    assert (c.mask ^ PixelBit(x, y)) ^ PixelBit(x, y) == c.mask;
  }

  /** The last write to a cell decides its whole colour state, whatever dot earlier writes touched. */
  lemma LastInkWins(m: Cells, p: Dot, q: Dot, first: Option<Color>, second: Option<Color>)
    requires CellKey(p.0, p.1) == CellKey(q.0, q.1)
    ensures var c := CellAt(Paint(Paint(m, p.0, p.1, first), q.0, q.1, second), CellKey(q.0, q.1));
      c.colored == second.Some? && c.color == (if second.Some? then second.value else White) && c.ch == ' '
  {
  }

  // ---------------------------------------------------------------------------
  // Painting a sequence of dots

  /** Paint the dots of `ds` one after another, first to last. */
  function PaintDots(m: Cells, ds: seq<Dot>, ink: Option<Color>): Cells
    decreases |ds|
  {
    if ds == [] then m
    else
      var last := ds[|ds| - 1];
      Paint(PaintDots(m, ds[..|ds| - 1], ink), last.0, last.1, ink)
  }

  lemma PaintDotsSnoc(m: Cells, ds: seq<Dot>, d: Dot, ink: Option<Color>)
    ensures PaintDots(m, ds + [d], ink) == Paint(PaintDots(m, ds, ink), d.0, d.1, ink)
  {
    assert (ds + [d])[..|ds|] == ds;
  }

  /** Painting a sequence of dots sets exactly those dots and keeps every other dot. */
  lemma {:induction false} PaintDotsExact(m: Cells, ds: seq<Dot>, ink: Option<Color>, q: Dot)
    ensures DotIn(PaintDots(m, ds, ink), q.0, q.1) <==>
            DotIn(m, q.0, q.1) || exists k | 0 <= k < |ds| :: SameDot(ds[k], q)
    decreases |ds|
  {
    if ds != [] {
      var init, last := ds[..|ds| - 1], ds[|ds| - 1];
      PaintDotsExact(m, init, ink, q);
      PaintSetsOneDot(PaintDots(m, init, ink), last, ink, q);
      if exists k | 0 <= k < |ds| :: SameDot(ds[k], q) {
        var k :| 0 <= k < |ds| && SameDot(ds[k], q);
        if k < |init| {
          assert init[k] == ds[k];
        }
      }
      if exists k | 0 <= k < |init| :: SameDot(init[k], q) {
        var k :| 0 <= k < |init| && SameDot(init[k], q);
        assert ds[k] == init[k];
      }
    }
  }

  /** Every dot of a painted sequence is set afterwards. */
  lemma PaintDotsHas(m: Cells, ds: seq<Dot>, ink: Option<Color>, k: nat)
    requires k < |ds|
    ensures DotIn(PaintDots(m, ds, ink), ds[k].0, ds[k].1)
  {
    PaintDotsExact(m, ds, ink, ds[k]);
    assert SameDot(ds[k], ds[k]);
  }

  /** The cells that the dots of `ds` fall in. */
  function CellsOf(ds: seq<Dot>): (cs: set<Key>)
    ensures forall k | 0 <= k < |ds| :: CellKey(ds[k].0, ds[k].1) in cs
    ensures forall key | key in cs :: exists k | 0 <= k < |ds| :: CellKey(ds[k].0, ds[k].1) == key
    decreases |ds|
  {
    if ds == [] then {}
    else
      var init, last := ds[..|ds| - 1], ds[|ds| - 1];
      assert forall k | 0 <= k < |init| :: init[k] == ds[k];
      CellsOf(init) + {CellKey(last.0, last.1)}
  }

  /** Painting a sequence of dots adds the cells of those dots and leaves every other cell as it was. */
  lemma {:induction false} PaintDotsFrame(m: Cells, ds: seq<Dot>, ink: Option<Color>)
    ensures PaintDots(m, ds, ink).Keys == m.Keys + CellsOf(ds)
    ensures forall key | key !in CellsOf(ds) :: CellAt(PaintDots(m, ds, ink), key) == CellAt(m, key)
    decreases |ds|
  {
    if ds != [] {
      PaintDotsFrame(m, ds[..|ds| - 1], ink);
    }
  }

  /** Painting `a` and then `b` is painting `a + b`. */
  lemma {:induction false} PaintDotsAppend(m: Cells, a: seq<Dot>, b: seq<Dot>, ink: Option<Color>)
    ensures PaintDots(m, a + b, ink) == PaintDots(PaintDots(m, a, ink), b, ink)
    decreases |b|
  {
    if b == [] {
      assert a + b == a;
    } else {
      var init, last := b[..|b| - 1], b[|b| - 1];
      assert (a + b)[..|a + b| - 1] == a + init && (a + b)[|a + b| - 1] == last;
      PaintDotsAppend(m, a, init, ink);
    }
  }

  /**
   * Every cell a sequence of dots touches ends up with the ink of that sequence,
   * whatever colour it had: the last write wins for the whole cell.
   */
  lemma {:induction false} PaintDotsInk(m: Cells, ds: seq<Dot>, ink: Option<Color>, key: Key)
    requires key in CellsOf(ds)
    ensures CellAt(PaintDots(m, ds, ink), key).colored == ink.Some?
    ensures CellAt(PaintDots(m, ds, ink), key).color == (if ink.Some? then ink.value else White)
    ensures CellAt(PaintDots(m, ds, ink), key).ch == ' '
    decreases |ds|
  {
    var init, last := ds[..|ds| - 1], ds[|ds| - 1];
    if key != CellKey(last.0, last.1) {
      assert key in CellsOf(init);
      PaintDotsInk(m, init, ink, key);
    }
  }

  // ---------------------------------------------------------------------------
  // Drawing as an overlay

  /** A cell of a drawing laid over the cell below it: the dots of both, the char and colour state of the top cell. */
  function Over(below: Cell, top: Cell): Cell
  {
    Cell(below.mask | top.mask, top.ch, top.colored, top.color)
  }

  lemma OverAssoc(x: Cell, y: Cell, z: Cell)
    ensures Over(Over(x, y), z) == Over(x, Over(y, z))
  {
    assert (x.mask | y.mask) | z.mask == x.mask | (y.mask | z.mask);
  }

  /**
   * The map `m` with the drawing `d` laid over it: a cell of `d` ORs its dots into
   * the cell below it and brings its own char and colour state; other cells stay.
   */
  function Overlay(m: Cells, d: Cells): (r: Cells)
    ensures r.Keys == m.Keys + d.Keys
    ensures forall k | k !in d :: CellAt(r, k) == CellAt(m, k)
  {
    map k | k in m.Keys + d.Keys :: if k in d then Over(CellAt(m, k), d[k]) else m[k]
  }

  /** Laying `a` and then `b` over a map is laying `a` with `b` over it, over the map. */
  lemma OverlayAssoc(m: Cells, a: Cells, b: Cells)
    ensures Overlay(Overlay(m, a), b) == Overlay(m, Overlay(a, b))
  {
    var l, r := Overlay(Overlay(m, a), b), Overlay(m, Overlay(a, b));
    forall k | k in l
      ensures l[k] == r[k]
    {
      if k in b {
        OverAssoc(CellAt(m, k), CellAt(a, k), b[k]);
      }
    }
  }

  /** Laying a drawing over itself again changes nothing: the OR of a mask with itself is that mask. */
  lemma OverlayTwice(m: Cells, d: Cells)
    ensures Overlay(Overlay(m, d), d) == Overlay(m, d)
  {
    OverlayAssoc(m, d, d);
    assert Overlay(d, d) == d;
  }

  /** `set` and `set_colored` lay the cell they produce on an empty map over the current one. */
  lemma PaintOverlay(m: Cells, x: nat, y: nat, ink: Option<Color>)
    ensures Paint(m, x, y, ink) == Overlay(m, Paint(map[], x, y, ink))
  {
    var k := CellKey(x, y);
    assert Paint(map[], x, y, ink)[k].mask == 0 | PixelBit(x, y) == PixelBit(x, y);
  }

  /**
   * Painting a sequence of dots lays the same drawing over whatever map it starts
   * from: the earlier contents only contribute their dots, ORed in.
   */
  lemma {:induction false} PaintDotsOverlay(m: Cells, ds: seq<Dot>, ink: Option<Color>)
    ensures PaintDots(m, ds, ink) == Overlay(m, PaintDots(map[], ds, ink))
    decreases |ds|
  {
    if ds == [] {
      assert Overlay(m, map[]) == m;
    } else {
      var init, last := ds[..|ds| - 1], ds[|ds| - 1];
      var d := PaintDots(map[], init, ink);
      PaintDotsOverlay(m, init, ink);
      PaintOverlay(Overlay(m, d), last.0, last.1, ink);
      PaintOverlay(d, last.0, last.1, ink);
      OverlayAssoc(m, d, Paint(map[], last.0, last.1, ink));
    }
  }

  /** Painting the same dots with the same ink twice is painting them once. */
  lemma PaintDotsIdempotent(m: Cells, ds: seq<Dot>, ink: Option<Color>)
    ensures PaintDots(PaintDots(m, ds, ink), ds, ink) == PaintDots(m, ds, ink)
  {
    var d := PaintDots(map[], ds, ink);
    PaintDotsOverlay(m, ds, ink);
    PaintDotsOverlay(PaintDots(m, ds, ink), ds, ink);
    OverlayTwice(m, d);
  }

  // ---------------------------------------------------------------------------
  // Lines

  /** `max(a, b) - min(a, b)`. */
  function Dist(a: nat, b: nat): nat
  {
    if a <= b then b - a else a - b
  }

  /** The number of steps of a line, `r = max(xdiff, ydiff)`. */
  function LineSteps(x1: nat, y1: nat, x2: nat, y2: nat): nat
  {
    var xdiff, ydiff := Dist(x1, x2), Dist(y1, y2);
    if xdiff <= ydiff then ydiff else xdiff
  }

  lemma MulMonotone(i: nat, r: nat, d: nat)
    requires i <= r
    ensures i * d <= r * d
  {
    assert r * d == i * d + (r - i) * d;
  }

  /** The quotient is determined by `n == q * r + s` with `s < r`. */
  lemma DivUnique(n: nat, r: nat, q: nat, s: nat)
    requires 0 < r && s < r && n == q * r + s
    ensures n / r == q
  {
    var q', s' := n / r, n % r;
    assert n == q' * r + s';
    if q' < q {
      MulMonotone(q' + 1, q, r);
    } else if q < q' {
      MulMonotone(q + 1, q', r);
    }
  }

  /** Truncating division is monotone in the dividend. */
  lemma DivMonotone(a: nat, b: nat, r: nat)
    requires 0 < r && a <= b
    ensures a / r <= b / r
  {
    if a / r > b / r {
      MulMonotone(b / r + 1, a / r, r);
    }
  }

  /** The offsets `(i * diff) / r` of the loop in `Canvas::line`. */
  lemma ScaledStep(i: nat, d: nat, r: nat)
    requires 0 < r && i <= r
    ensures (i * d) / r <= d
    ensures i == 0 ==> (i * d) / r == 0
    ensures i == r ==> (i * d) / r == d
    ensures d == r ==> (i * d) / r == i
  {
    MulMonotone(i, r, d);
    DivMonotone(i * d, r * d, r);
    DivUnique(r * d, r, d, 0);
    DivUnique(i * r, r, i, 0);
  }

  /** One more step of the loop moves a minor coordinate by 0 or 1. */
  lemma ScaledStepIncrement(i: nat, d: nat, r: nat)
    requires 0 < r && i < r && d <= r
    ensures (i * d) / r <= ((i + 1) * d) / r <= (i * d) / r + 1
  {
    var q := (i * d) / r;
    assert (i + 1) * d == i * d + d;
    DivMonotone(i * d, (i + 1) * d, r);
    assert i * d < (q + 1) * r;
    assert (i + 1) * d < (q + 2) * r;
    if ((i + 1) * d) / r >= q + 2 {
      MulMonotone(q + 2, ((i + 1) * d) / r, r);
    }
  }

  /** How far step `i` of `r` has moved along an axis of length `d`: `(i * d) / r`. */
  function Offset(i: nat, d: nat, r: nat): (q: nat)
    requires 0 < r && i <= r
    ensures q <= d
    ensures i == 0 ==> q == 0
    ensures i == r ==> q == d
    ensures d == r ==> q == i
  {
    ScaledStep(i, d, r);
    (i * d) / r
  }

  /**
   * Coordinate `a` at step `i` of `r` on its way to `b`: `Canvas::line`'s
   * `a + (i * diff) / r * dir`, left at `a` when `diff == 0`.
   */
  function Advance(a: nat, b: nat, i: nat, r: nat): (c: nat)
    requires Dist(a, b) <= r && i <= r
    ensures if a <= b then a <= c <= b else b <= c <= a
    ensures i == 0 ==> c == a
    ensures i == r ==> c == b
    ensures Dist(a, b) == r ==> Dist(a, c) == i
  {
    var diff := Dist(a, b);
    if diff == 0 then a
    else if a <= b then a + Offset(i, diff, r)
    else a - Offset(i, diff, r)
  }

  /** The dot of step `i` of the line from (x1, y1) to (x2, y2). */
  function LinePoint(x1: nat, y1: nat, x2: nat, y2: nat, i: nat): Dot
    requires i <= LineSteps(x1, y1, x2, y2)
  {
    var r := LineSteps(x1, y1, x2, y2);
    (Advance(x1, x2, i, r), Advance(y1, y2, i, r))
  }

  /** The dot lies in the bounding box of the two endpoints. */
  predicate InBox(d: Dot, x1: nat, y1: nat, x2: nat, y2: nat)
  {
    (if x1 <= x2 then x1 <= d.0 <= x2 else x2 <= d.0 <= x1) &&
    (if y1 <= y2 then y1 <= d.1 <= y2 else y2 <= d.1 <= y1)
  }

  /**
   * `line(x1, y1, x2, y2)`: the dots the loop `for i in 0..=r` sets, in order: r + 1
   * dots from one endpoint to the other.
   */
  function LineDots(x1: nat, y1: nat, x2: nat, y2: nat): (ds: seq<Dot>)
    ensures |ds| == LineSteps(x1, y1, x2, y2) + 1
    ensures ds[0] == (x1, y1) && ds[|ds| - 1] == (x2, y2)
  {
    var r := LineSteps(x1, y1, x2, y2);
    seq(r + 1, i requires 0 <= i <= r => LinePoint(x1, y1, x2, y2, i))
  }

  /** Every dot of a line lies inside the bounding box of its endpoints. */
  lemma LineInBox(x1: nat, y1: nat, x2: nat, y2: nat)
    ensures var ds := LineDots(x1, y1, x2, y2);
      forall k | 0 <= k < |ds| :: InBox(ds[k], x1, y1, x2, y2)
  {
  }

  /** A line never visits the same dot twice: the major coordinate moves at every step. */
  lemma LineDotsDistinct(x1: nat, y1: nat, x2: nat, y2: nat)
    ensures var ds := LineDots(x1, y1, x2, y2);
      forall j, k | 0 <= j < k < |ds| :: ds[j] != ds[k]
  {
  }

  /** Drawing a line sets both of its endpoints. */
  lemma LineSetsEndpoints(m: Cells, x1: nat, y1: nat, x2: nat, y2: nat, ink: Option<Color>)
    ensures DotIn(PaintDots(m, LineDots(x1, y1, x2, y2), ink), x1, y1)
    ensures DotIn(PaintDots(m, LineDots(x1, y1, x2, y2), ink), x2, y2)
  {
    var ds := LineDots(x1, y1, x2, y2);
    PaintDotsExact(m, ds, ink, (x1, y1));
    PaintDotsExact(m, ds, ink, (x2, y2));
    assert SameDot(ds[0], (x1, y1)) && SameDot(ds[|ds| - 1], (x2, y2));
  }

  /** A degenerate line is the single dot (x, y). */
  lemma LineToItself(x: nat, y: nat)
    ensures LineDots(x, y, x, y) == [(x, y)]
  {
  }

  /** Consecutive dots of a line are neighbours: each coordinate moves by at most one. */
  lemma LineIsConnected(x1: nat, y1: nat, x2: nat, y2: nat)
    ensures var ds := LineDots(x1, y1, x2, y2);
      forall k | 0 <= k < |ds| - 1 :: Dist(ds[k].0, ds[k + 1].0) <= 1 && Dist(ds[k].1, ds[k + 1].1) <= 1
  {
    var r := LineSteps(x1, y1, x2, y2);
    forall k | 0 <= k < r
      ensures Dist(LinePoint(x1, y1, x2, y2, k).0, LinePoint(x1, y1, x2, y2, k + 1).0) <= 1
      ensures Dist(LinePoint(x1, y1, x2, y2, k).1, LinePoint(x1, y1, x2, y2, k + 1).1) <= 1
    {
      ScaledStepIncrement(k, Dist(x1, x2), r);
      ScaledStepIncrement(k, Dist(y1, y2), r);
    }
  }

  // ---------------------------------------------------------------------------
  // Text

  /** Char `i` of a text is placed: its offset `2 * i` does not exceed `max_width`. */
  predicate Placed(i: nat, maxWidth: nat)
  {
    2 * i <= maxWidth
  }

  /** How many chars of an `n`-char text `text` places before it stops. */
  function TextLen(maxWidth: nat, n: nat): (k: nat)
    ensures k <= n
    ensures forall i | 0 <= i < n :: i < k <==> Placed(i, maxWidth)
  {
    var fit := maxWidth / 2 + 1;
    if n <= fit then n else fit
  }

  /** `set_char` for each char of `t` in turn, at dot columns x, x + 2, x + 4, ... of dot row y. */
  function PutText(m: Cells, x: nat, y: nat, t: string): Cells
    decreases |t|
  {
    if t == [] then m
    else PutChar(PutText(m, x, y, t[..|t| - 1]), x + 2 * (|t| - 1), y, t[|t| - 1])
  }

  /** Every placed char shows in its own cell (as long as the cells do not wrap around the u16 range). */
  lemma {:induction false} PutTextShows(m: Cells, x: nat, y: nat, t: string, k: nat)
    requires k < |t| <= U16
    ensures CellAt(PutText(m, x, y, t), CellKey(x + 2 * k, y)) == Cell(0, t[k], false, White)
    decreases |t|
  {
    var n := |t| - 1;
    if k < n {
      assert (x + 2 * k) / 2 == x / 2 + k && (x + 2 * n) / 2 == x / 2 + n;
      assert CellKey(x + 2 * k, y) != CellKey(x + 2 * n, y);
      PutTextShows(m, x, y, t[..n], k);
    }
  }

  // ---------------------------------------------------------------------------
  // Rendering

  /** One printed character cell: plain, or wrapped in a colour (the escape bytes are not modelled). */
  datatype Glyph = Plain(ch: char) | Tinted(ch: char, color: Color)

  const Newline: Glyph := Plain('\n')

  /** The Braille pattern for a dot mask: codepoint 0x2800 + mask, inside the Braille Patterns block. */
  function Braille(mask: bv8): (c: char)
    ensures 0x2800 <= c as int <= 0x28FF
    ensures c as int - 0x2800 == mask as int
  {
    (0x2800 + mask as int) as char
  }

  /** How `rows` prints a cell: the stored char when no dot is set, else its Braille pattern, coloured if the cell is. */
  function Render(c: Cell): Glyph
  {
    if c.mask == 0 then Plain(c.ch)
    else if !c.colored then Plain(Braille(c.mask))
    else Tinted(Braille(c.mask), c.color)
  }

  /** The largest of `lo` and the elements of `s`. */
  ghost function SetMax(s: set<nat>, lo: nat): (r: nat)
    ensures lo <= r
    ensures forall v | v in s :: v <= r
    ensures r == lo || r in s
    decreases s
  {
    if s == {} then lo
    else
      var v :| v in s;
      var r := SetMax(s - {v}, if lo < v then v else lo);
      assert forall u | u in s :: u == v || u in s - {v};
      r
  }

  ghost function Firsts(m: Cells): set<nat>
  {
    set k | k in m :: k.0
  }

  ghost function Seconds(m: Cells): set<nat>
  {
    set k | k in m :: k.1
  }

  /**
   * What `rows` returns: one row per cell row 0..max(nominal height, largest
   * touched row), each with one glyph per cell column 0..max(nominal width,
   * largest touched column).
   */
  ghost function Grid(m: Cells, width: nat, height: nat): seq<seq<Glyph>>
  {
    var cols := SetMax(Firsts(m), width) + 1;
    seq(SetMax(Seconds(m), height) + 1, y requires 0 <= y => Row(m, y, cols))
  }

  /** Rows that agree with the grid row by row are the grid. */
  lemma GridRows(m: Cells, width: nat, height: nat, rows: seq<seq<Glyph>>)
    requires |rows| == SetMax(Seconds(m), height) + 1
    requires forall y | 0 <= y < |rows| :: rows[y] == Row(m, y, SetMax(Firsts(m), width) + 1)
    ensures rows == Grid(m, width, height)
  {
  }

  /** The first `n` cells of cell row `y`, rendered left to right. */
  function Row(m: Cells, y: nat, n: nat): seq<Glyph>
  {
    seq(n, x requires 0 <= x => Render(CellAt(m, (x, y))))
  }

  /**
   * The grid covers every touched cell and every cell of the nominal size, and
   * shows each cell as `Render` does; cells never touched show as blanks.
   */
  lemma GridShape(m: Cells, width: nat, height: nat)
    ensures var g := Grid(m, width, height);
      && |g| > height
      && (forall k | k in m :: k.1 < |g|)
      && (forall y | 0 <= y < |g| :: |g[y]| > width && (forall k | k in m :: k.0 < |g[y]|))
      && (forall y, x | 0 <= y < |g| && 0 <= x < |g[y]| :: g[y][x] == Render(CellAt(m, (x, y))))
      && (|g| - 1 == height || exists k | k in m :: k.1 == |g| - 1)
      && (forall y | 0 <= y < |g| :: |g[y]| - 1 == width || exists k | k in m :: k.0 == |g[y]| - 1)
  {
    var g := Grid(m, width, height);
    var cols, rows := SetMax(Firsts(m), width) + 1, SetMax(Seconds(m), height) + 1;
    assert |g| == rows;
    forall y | 0 <= y < rows
      ensures |g[y]| == cols
      ensures forall x | 0 <= x < cols :: g[y][x] == Render(CellAt(m, (x, y)))
    {
    }
    forall k | k in m
      ensures k.0 < cols && k.1 < rows
    {
      assert k.0 in Firsts(m);
      assert k.1 in Seconds(m);
    }
    if rows - 1 != height {
      assert rows - 1 in Seconds(m);
      var k :| k in m && k.1 == rows - 1;
    }
    if cols - 1 != width {
      assert cols - 1 in Firsts(m);
      var k :| k in m && k.0 == cols - 1;
    }
  }

  /** `rows().join("\n")`. */
  function Join(rows: seq<seq<Glyph>>): seq<Glyph>
    decreases |rows|
  {
    if |rows| == 0 then []
    else if |rows| == 1 then rows[0]
    else rows[0] + [Newline] + Join(rows[1..])
  }

  /** Cut a text at every newline: the lines a reader of the frame sees. */
  function Split(f: seq<Glyph>): (lines: seq<seq<Glyph>>)
    ensures |lines| >= 1
    decreases |f|
  {
    if f == [] then [[]]
    else
      var rest := Split(f[1..]);
      if f[0] == Newline then [[]] + rest else [[f[0]] + rest[0]] + rest[1..]
  }

  lemma {:induction false} SplitLine(a: seq<Glyph>, b: seq<Glyph>)
    requires Newline !in a
    ensures Split(a + [Newline] + b) == [a] + Split(b)
    ensures Split(a) == [a]
    decreases |a|
  {
    if a == [] {
      assert [] + [Newline] + b == [Newline] + b;
      assert ([Newline] + b)[1..] == b;
    } else {
      SplitLine(a[1..], b);
      assert (a + [Newline] + b)[1..] == a[1..] + [Newline] + b;
      assert [a[0]] + a[1..] == a;
    }
  }

  /** The frame gives back its rows when no cell prints a newline. */
  lemma {:induction false} SplitJoin(rows: seq<seq<Glyph>>)
    requires |rows| >= 1
    requires forall i | 0 <= i < |rows| :: Newline !in rows[i]
    ensures Split(Join(rows)) == rows
    decreases |rows|
  {
    if |rows| == 1 {
      SplitLine(rows[0], []);
    } else {
      SplitJoin(rows[1..]);
      SplitLine(rows[0], Join(rows[1..]));
      assert [rows[0]] + rows[1..] == rows;
    }
  }

  // ---------------------------------------------------------------------------
  // The canvas object

  /** A canvas drawn with Braille characters; it grows beyond its nominal size when dots are set outside it. */
  class Canvas {
    /** The touched cells, keyed by cell coordinate. */
    var chars: Cells
    /** Nominal width, in cells; no method changes it. */
    const width: nat
    /** Nominal height, in cells; no method changes it. */
    const height: nat

    /** `new(width, height)`: sizes are given in dots and stored in cells, as u16. */
    constructor (width: u32, height: u32)
      ensures chars == map[]
      ensures this.width == (width / 2) % U16 && this.height == (height / 4) % U16
    {
      chars := map[];
      this.width := (width / 2) % U16;
      this.height := (height / 4) % U16;
    }

    /** `clear`: forget every cell; the nominal size stays. */
    method Clear()
      modifies this`chars
      ensures chars == map[]
    {
      chars := map[];
    }

    /** `set(x, y)`. */
    method Set(x: u32, y: u32)
      modifies this`chars
      ensures chars == Paint(old(chars), x, y, None)
      ensures Get(x, y)
    {
      var k := CellKey(x, y);
      var a := if k in chars then chars[k] else Blank;
      a := a.(mask := a.mask | PixelBit(x, y));
      a := a.(ch := ' ', colored := false, color := White);
      chars := chars[k := a];
    }

    /** `set_colored(x, y, color)`. */
    method SetColored(x: u32, y: u32, color: Color)
      modifies this`chars
      ensures chars == Paint(old(chars), x, y, Some(color))
      ensures Get(x, y)
    {
      var k := CellKey(x, y);
      var a := if k in chars then chars[k] else Blank;
      a := a.(mask := a.mask | PixelBit(x, y));
      a := a.(ch := ' ', colored := true, color := color);
      chars := chars[k := a];
    }

    /** `set_char(x, y, c)`. */
    method SetChar(x: u32, y: u32, c: char)
      modifies this`chars
      ensures chars == PutChar(old(chars), x, y, c)
    {
      var k := CellKey(x, y);
      var a := if k in chars then chars[k] else Blank;
      a := Cell(0, c, false, White);
      chars := chars[k := a];
    }

    /**
     * `text(x, y, max_width, text)`: char i goes to dot column x + 2i until the
     * offset 2i exceeds max_width. The requires rule out u32 overflow of the
     * offset and of the column.
     */
    method Text(x: u32, y: u32, maxWidth: u32, text: string)
      requires TextLen(maxWidth, |text|) < 0x8000_0000
      requires TextLen(maxWidth, |text|) == 0 || x + 2 * (TextLen(maxWidth, |text|) - 1) < 0x1_0000_0000
      modifies this`chars
      ensures chars == PutText(old(chars), x, y, text[..TextLen(maxWidth, |text|)])
    {
      var i := 0;
      while i < |text|
        invariant i <= TextLen(maxWidth, |text|)
        invariant chars == PutText(old(chars), x, y, text[..i])
      {
        var w := i * 2;
        if w > maxWidth {
          assert !Placed(i, maxWidth);
          return;
        }
        SetChar(x + w, y, text[i]);
        assert text[..i + 1][..i] == text[..i];
        i := i + 1;
      }
      assert text[..|text|] == text;
    }

    /** `unset(x, y)`. */
    method Unset(x: u32, y: u32)
      modifies this`chars
      ensures chars == Erase(old(chars), x, y)
      ensures !Get(x, y)
    {
      var k := CellKey(x, y);
      var a := if k in chars then chars[k] else Blank;
      a := a.(mask := a.mask & !PixelBit(x, y));
      chars := chars[k := a];
    }

    /** `toggle(x, y)`. */
    method Toggle(x: u32, y: u32)
      modifies this`chars
      ensures chars == Flip(old(chars), x, y)
      ensures Get(x, y) <==> !old(Get(x, y))
    {
      var k := CellKey(x, y);
      var a := if k in chars then chars[k] else Blank;
      a := a.(mask := a.mask ^ PixelBit(x, y));
      assert chars[k := a] == Flip(chars, x, y);
      chars := chars[k := a];
    }

    /** `get(x, y)`: whether the dot is set; a cell that was never touched reads false. */
    function Get(x: u32, y: u32): (b: bool)
      reads this
      ensures CellKey(x, y) !in chars ==> !b
    {
      DotIn(chars, x, y)
    }

    /**
     * The first half of `rows`: the largest cell column and row among the nominal
     * size and the keys of the map.
     */
    method Extent() returns (maxrow: nat, maxcol: nat)
      ensures maxrow == SetMax(Firsts(chars), width)
      ensures maxcol == SetMax(Seconds(chars), height)
    {
      maxrow, maxcol := width, height;
      var todo := chars.Keys;
      while todo != {}
        invariant todo <= chars.Keys
        invariant width <= maxrow && height <= maxcol
        invariant forall k | k in chars && k !in todo :: k.0 <= maxrow && k.1 <= maxcol
        invariant maxrow == width || exists k | k in chars && k !in todo :: k.0 == maxrow
        invariant maxcol == height || exists k | k in chars && k !in todo :: k.1 == maxcol
        decreases todo
      {
        var k: Key :| k in todo;
        if k.0 > maxrow {
          maxrow := k.0;
        }
        if k.1 > maxcol {
          maxcol := k.1;
        }
        todo := todo - {k};
      }
      MaxIsSetMax(Firsts(chars), width, maxrow);
      MaxIsSetMax(Seconds(chars), height, maxcol);
    }

    /** `rows`: every cell of the grid `Extent` delimits is rendered, row by row. */
    method Rows() returns (rows: seq<seq<Glyph>>)
      ensures rows == Grid(chars, width, height)
    {
      var maxrow, maxcol := Extent();
      rows := RenderRows(chars, maxcol + 1, maxrow + 1);
      GridRows(chars, width, height, rows);
    }

    /** The loop over cell rows `0..n` of `rows`. */
    static method RenderRows(cells: Cells, n: nat, cols: nat) returns (rows: seq<seq<Glyph>>)
      ensures |rows| == n && forall y | 0 <= y < n :: rows[y] == Row(cells, y, cols)
    {
      rows := [];
      for y := 0 to n
        invariant |rows| == y
        invariant forall j | 0 <= j < y :: rows[j] == Row(cells, j, cols)
      {
        var row := RenderRow(cells, y, cols);
        rows := rows + [row];
      }
    }

    /** One row of `rows`: the first `n` cells of cell row `y`, rendered left to right. */
    static method RenderRow(cells: Cells, y: nat, n: nat) returns (row: seq<Glyph>)
      ensures row == Row(cells, y, n)
    {
      row := [];
      for x := 0 to n
        invariant row == Row(cells, y, x)
      {
        row := row + [Render(CellAt(cells, (x, y)))];
      }
    }

    /** `frame`: the rows joined by newlines. */
    method Frame() returns (frame: seq<Glyph>)
      ensures frame == Join(Grid(chars, width, height))
    {
      var rows := Rows();
      frame := Join(rows);
    }

    /** `line(x1, y1, x2, y2)`; the coordinates are bounded so that `i * diff` cannot overflow u32. */
    method Line(x1: u32, y1: u32, x2: u32, y2: u32)
      requires x1 < U16 && y1 < U16 && x2 < U16 && y2 < U16
      modifies this`chars
      ensures chars == PaintDots(old(chars), LineDots(x1, y1, x2, y2), None)
      ensures Get(x1, y1) && Get(x2, y2)
    {
      Stroke(x1, y1, x2, y2, None);
      LineSetsEndpoints(old(chars), x1, y1, x2, y2, None);
    }

    /** `line_colored(x1, y1, x2, y2, color)`. */
    method LineColored(x1: u32, y1: u32, x2: u32, y2: u32, color: Color)
      requires x1 < U16 && y1 < U16 && x2 < U16 && y2 < U16
      modifies this`chars
      ensures chars == PaintDots(old(chars), LineDots(x1, y1, x2, y2), Some(color))
      ensures Get(x1, y1) && Get(x2, y2)
    {
      Stroke(x1, y1, x2, y2, Some(color));
      LineSetsEndpoints(old(chars), x1, y1, x2, y2, Some(color));
    }

    /** Step `i` of a stroke: the dot `ds[i]` is set with `set` or `set_colored`. */
    method Dab(ghost m: Cells, ghost ds: seq<Dot>, ghost i: nat, x: u32, y: u32, ink: Option<Color>)
      requires i < |ds| && ds[i] == (x, y)
      requires chars == PaintDots(m, ds[..i], ink)
      modifies this`chars
      ensures chars == PaintDots(m, ds[..i + 1], ink)
    {
      if ink.Some? {
        SetColored(x, y, ink.value);
      } else {
        Set(x, y);
      }
      assert ds[..i + 1] == ds[..i] + [ds[i]];
      PaintDotsSnoc(m, ds[..i], ds[i], ink);
    }

    /** The loop shared by `line` and `line_colored`: step i of r sets one dot with `set` or `set_colored`. */
    method Stroke(x1: u32, y1: u32, x2: u32, y2: u32, ink: Option<Color>)
      requires x1 < U16 && y1 < U16 && x2 < U16 && y2 < U16
      modifies this`chars
      ensures chars == PaintDots(old(chars), LineDots(x1, y1, x2, y2), ink)
    {
      var xdiff: nat := if x1 <= x2 then x2 - x1 else x1 - x2;
      var ydiff: nat := if y1 <= y2 then y2 - y1 else y1 - y2;
      var xdir: int := if x1 <= x2 then 1 else -1;
      var ydir: int := if y1 <= y2 then 1 else -1;
      var r: nat := if xdiff <= ydiff then ydiff else xdiff;
      ghost var ds := LineDots(x1, y1, x2, y2);
      assert |ds| == r + 1;
      assert r == LineSteps(x1, y1, x2, y2) && xdiff == Dist(x1, x2) && ydiff == Dist(y1, y2);
      var i := 0;
      while i <= r
        invariant i <= |ds|
        invariant chars == PaintDots(old(chars), ds[..i], ink)
      {
        var x := StepCoordinate(x1, x2, xdiff, xdir, i, r);
        var y := StepCoordinate(y1, y2, ydiff, ydir, i, r);
        assert (x, y) == ds[i];
        Dab(old(chars), ds, i, x, y, ink);
        i := i + 1;
      }
      assert ds[..i] == ds;
    }
  }

  /**
   * One coordinate of step `i` of `line`: `a + ((i * diff) / r) * dir`, or `a`
   * itself when `diff == 0`; it is the coordinate `Advance` describes.
   */
  method StepCoordinate(a: u32, b: u32, diff: nat, dir: int, i: nat, r: nat) returns (c: u32)
    requires diff == Dist(a, b) && dir == (if a <= b then 1 else -1)
    requires diff <= r && i <= r
    ensures c == Advance(a, b, i, r)
  {
    var v: int := a;
    if diff != 0 {
      v := v + (i * diff) / r * dir;
    }
    assert v == Advance(a, b, i, r);
    c := v;
  }

  /** A value meeting the characterisation of a maximum is the one `SetMax` returns. */
  lemma MaxIsSetMax(s: set<nat>, lo: nat, r: nat)
    requires lo <= r && (forall v | v in s :: v <= r) && (r == lo || r in s)
    ensures r == SetMax(s, lo)
  {
  }

  // ---------------------------------------------------------------------------
  // The example of the module documentation

  /** A text of uncoloured glyphs. */
  function Plains(t: string): seq<Glyph>
  {
    seq(|t|, i requires 0 <= i < |t| => Plain(t[i]))
  }

  /** The dots of `line(2, 2, 8, 8)`: the diagonal, one dot per step. */
  lemma DiagonalDots()
    ensures LineDots(2, 2, 8, 8) == Diagonal
  {
    var ds := LineDots(2, 2, 8, 8);
    forall i | 0 <= i <= 6
      ensures ds[i] == (2 + i, 2 + i)
    {
      assert Offset(i, 6, 6) == i;
    }
  }

  /** The cells after `set(5, 4)` and `line(2, 2, 8, 8)` on a fresh canvas. */
  const ExampleCells: Cells := map[
    (1, 0) := Cell(0x84, ' ', false, White),
    (2, 1) := Cell(0x19, ' ', false, White),
    (3, 1) := Cell(0x84, ' ', false, White),
    (4, 2) := Cell(0x01, ' ', false, White)]

  /** A cell holding dots only. */
  function Dots(mask: bv8): Cell
  {
    Cell(mask, ' ', false, White)
  }

  /** The dots of `line(2, 2, 8, 8)`. */
  const Diagonal: seq<Dot> := [(2, 2), (3, 3), (4, 4), (5, 5), (6, 6), (7, 7), (8, 8)]

  /** The cell each dot of the diagonal lands in, and that cell's dots afterwards. */
  const DiagonalCells: seq<(Key, bv8)> :=
    [((1, 0), 0x04), ((1, 0), 0x84), ((2, 1), 0x09), ((2, 1), 0x19), ((3, 1), 0x04), ((3, 1), 0x84), ((4, 2), 0x01)]

  /** The cells after `set(5, 4)` and the first `i` dots of the diagonal. */
  function Drawn(i: nat): Cells
    requires i <= |DiagonalCells|
  {
    if i == 0 then map[(2, 1) := Dots(0x08)]
    else Drawn(i - 1)[DiagonalCells[i - 1].0 := Dots(DiagonalCells[i - 1].1)]
  }

  /** Each dot of the diagonal turns one stage of the drawing into the next. */
  lemma DrawnStep(i: nat)
    requires i < |Diagonal|
    ensures Paint(Drawn(i), Diagonal[i].0, Diagonal[i].1, None) == Drawn(i + 1)
  {
    var d := Diagonal[i];
    PaintInto(Drawn(i), d.0, d.1, DiagonalCells[i].0, PixelBit(d.0, d.1));
    // One branch per step, so that each case is checked with `i` a constant.
    if i == 0 {
    } else if i == 1 {
    } else if i == 2 {
    } else if i == 3 {
    } else if i == 4 {
    } else if i == 5 {
    } else {
    }
  }

  /** The drawing after the first `i` dots of the diagonal. */
  lemma {:induction false} DrawnPrefix(i: nat)
    requires i <= |Diagonal|
    ensures PaintDots(Paint(map[], 5, 4, None), Diagonal[..i], None) == Drawn(i)
  {
    var m := Paint(map[], 5, 4, None);
    if i == 0 {
      PaintInto(map[], 5, 4, (2, 1), 0x08);
      assert Diagonal[..0] == [];
    } else {
      DrawnPrefix(i - 1);
      DrawnStep(i - 1);
      PaintDotsStep(m, Diagonal, i - 1, Drawn(i));
    }
  }

  /** The last stage is the drawing of the example. */
  lemma DrawnComplete()
    ensures Drawn(7) == ExampleCells
  {
    assert Drawn(2) == map[(2, 1) := Dots(0x08), (1, 0) := Dots(0x84)];
    assert Drawn(4) == map[(2, 1) := Dots(0x19), (1, 0) := Dots(0x84)];
    assert Drawn(6) == map[(2, 1) := Dots(0x19), (1, 0) := Dots(0x84), (3, 1) := Dots(0x84)];
  }

  /** Drawing the example: `set(5, 4)`, then `line(2, 2, 8, 8)`. */
  lemma ExampleDrawing()
    ensures PaintDots(Paint(map[], 5, 4, None), LineDots(2, 2, 8, 8), None) == ExampleCells
  {
    DiagonalDots();
    DrawnPrefix(7);
    assert Diagonal[..7] == Diagonal;
    DrawnComplete();
  }

  /** `Paint` without ink on a concrete dot: the cell `k` gets the bit `b` or-ed in. */
  lemma PaintInto(m: Cells, x: nat, y: nat, k: Key, b: bv8)
    requires CellKey(x, y) == k && PixelBit(x, y) == b
    ensures Paint(m, x, y, None) == m[k := Dots(CellAt(m, k).mask | b)]
  {
  }

  /** One more dot of a concrete drawing: if painting `ds[i]` onto the drawing so far gives `p`, the next prefix gives `p`. */
  lemma PaintDotsStep(m: Cells, ds: seq<Dot>, i: nat, p: Cells)
    requires i < |ds| && Paint(PaintDots(m, ds[..i], None), ds[i].0, ds[i].1, None) == p
    ensures PaintDots(m, ds[..i + 1], None) == p
  {
    assert ds[..i + 1] == ds[..i] + [ds[i]];
    PaintDotsSnoc(m, ds[..i], ds[i], None);
  }

  /** The rows the example expects, as text. */
  const ExampleText: seq<string> := [" \U{2884}    ", "  \U{2819}\U{2884}  ", "    \U{2801} "]

  /** Rows of uncoloured glyphs. */
  function PlainRows(t: seq<string>): seq<seq<Glyph>>
  {
    seq(|t|, y requires 0 <= y < |t| => Plains(t[y]))
  }

  /** The example's drawing reaches no further than the nominal 5 by 2 cells. */
  lemma ExampleExtent()
    ensures SetMax(Firsts(ExampleCells), 5) == 5
    ensures SetMax(Seconds(ExampleCells), 2) == 2
  {
    var m := ExampleCells;
    assert Firsts(m) == {1, 2, 3, 4} by {
      assert forall k | k in m :: k.0 in {1, 2, 3, 4};
      assert (1, 0) in m && (2, 1) in m && (3, 1) in m && (4, 2) in m;
    }
    assert Seconds(m) == {0, 1, 2} by {
      assert forall k | k in m :: k.1 in {0, 1, 2};
      assert (1, 0) in m && (2, 1) in m && (4, 2) in m;
    }
    MaxIsSetMax(Firsts(m), 5, 5);
    MaxIsSetMax(Seconds(m), 2, 2);
  }

  /** Each cell of the example shows as the expected character. */
  lemma ExampleCell(x: nat, y: nat)
    requires y < 3 && x < 6
    ensures Render(CellAt(ExampleCells, (x, y))) == Plain(ExampleText[y][x])
  {
    if (x, y) !in ExampleCells {
      assert ExampleText[y][x] == ' ';
    } else {
      assert Braille(0x84) == '\U{2884}' && Braille(0x19) == '\U{2819}' && Braille(0x01) == '\U{2801}';
    }
  }

  /** The grid of the example: three rows of six cells. */
  lemma ExampleGrid()
    ensures Grid(ExampleCells, 5, 2) == PlainRows(ExampleText)
  {
    var g, e := Grid(ExampleCells, 5, 2), PlainRows(ExampleText);
    ExampleExtent();
    assert |g| == 3;
    forall y | 0 <= y < 3
      ensures g[y] == e[y]
    {
      forall x | 0 <= x < 6
        ensures g[y][x] == e[y][x]
      {
        ExampleCell(x, y);
      }
    }
  }

  /** The frame of the example: the expected rows joined by newlines. */
  lemma ExampleFrame()
    ensures Join(Grid(ExampleCells, 5, 2)) == Join(PlainRows(ExampleText))
  {
    ExampleGrid();
  }

  /** The canvas of the example of the module documentation, drawn through the canvas methods. */
  method ExampleCanvas() returns (canvas: Canvas)
    ensures fresh(canvas)
    ensures canvas.chars == ExampleCells && canvas.width == 5 && canvas.height == 2
  {
    canvas := new Canvas(10, 10);
    assert canvas.width == 5 && canvas.height == 2;
    canvas.Set(5, 4);
    canvas.Line(2, 2, 8, 8);
    ExampleDrawing();
  }

  /**
   * The example of the module documentation: a 10 by 10 canvas, the dot (5, 4)
   * and a line from (2, 2) to (8, 8) show as three rows of Braille patterns.
   */
  method Example() returns (frame: seq<Glyph>)
    ensures frame == Join(PlainRows(ExampleText))
  {
    var canvas := ExampleCanvas();
    frame := canvas.Frame();
    ExampleFrame();
  }

}
