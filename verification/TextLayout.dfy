/** psplash-draw.c: laying out a text and drawing it, given the glyph of each code point. A text is the
    sequence of code points mbtowc yields for it. */
module PsplashLayout {
  import opened Words
  import opened PsplashCanvas
  import opened PsplashPainting

  datatype Glyph = Glyph(width: nat, rows: seq<U32>)

  /** A font as the layout sees it. */
  datatype Style = Style(face: nat -> Glyph, height: nat)

  const NEWLINE: nat := 10

  /** Column cx of a bitmap row is set. */
  predicate Bit(g: U32, cx: nat) { cx < 32 && BitAt(g, 31 - cx) }

  /** How many lines end before character k. */
  function Line(text: seq<nat>, k: nat): nat
    requires k <= |text|
  {
    if k == 0 then 0 else Line(text, k - 1) + if text[k - 1] == NEWLINE then 1 else 0
  }

  /** How far down character k starts. */
  function Row(st: Style, text: seq<nat>, k: nat): nat
    requires k <= |text|
  {
    if k == 0 then 0 else Row(st, text, k - 1) + if text[k - 1] == NEWLINE then st.height else 0
  }

  lemma {:induction false} RowIs(st: Style, text: seq<nat>, k: nat)
    requires k <= |text|
    ensures Row(st, text, k) == Line(text, k) * st.height
  {
    if k > 0 {
      RowIs(st, text, k - 1);
      assert (Line(text, k - 1) + 1) * st.height == Row(st, text, k - 1) + st.height;
    }
  }

  /** Where on its line character k starts. */
  function Column(st: Style, text: seq<nat>, k: nat): nat
    requires k <= |text|
  {
    if k == 0 || text[k - 1] == NEWLINE then 0 else Column(st, text, k - 1) + st.face(text[k - 1]).width
  }

  /** The first n rows of a bitmap set the pixel at (u, v). */
  predicate GlyphInk(rows: seq<U32>, w: nat, n: nat, u: int, v: int)
    requires n <= |rows|
  {
    0 <= v < n && 0 <= u < w && Bit(rows[v], u)
  }

  /** A character sets the pixel at (u, v) from its corner. */
  predicate CharInk(st: Style, wc: nat, u: int, v: int) {
    wc != NEWLINE && GlyphInk(st.face(wc).rows, st.face(wc).width, |st.face(wc).rows|, u, v)
  }

  /** Character k sets the pixel at (u, v) from the corner of the text. */
  predicate Inks(st: Style, text: seq<nat>, k: nat, u: int, v: int)
    requires k < |text|
  {
    CharInk(st, text[k], u - Column(st, text, k), v - Row(st, text, k))
  }

  function InksAt(st: Style, text: seq<nat>, u: int, v: int): nat -> bool {
    (k: nat) => k < |text| && Inks(st, text, k, u, v)
  }

  /** Some character sets the pixel. */
  predicate Inked(st: Style, text: seq<nat>, u: int, v: int) {
    Any(InksAt(st, text, u, v), |text|)
  }

  predicate ColumnsUpTo(st: Style, text: seq<nat>, n: nat, width: int)
    requires n <= |text|
  {
    forall k :: 0 <= k <= n ==> Column(st, text, k) <= width
  }

  ghost predicate IsWidth(st: Style, text: seq<nat>, width: int) {
    && ColumnsUpTo(st, text, |text|, width)
    && (exists k :: 0 <= k <= |text| && Column(st, text, k) == width)
  }

  /** The columns before k are at most mw, which is the one of character widest; w is that of k. */
  predicate WidestSoFar(st: Style, text: seq<nat>, k: nat, widest: nat, w: nat, mw: nat)
    requires k <= |text|
  {
    && w == Column(st, text, k)
    && widest <= k && Column(st, text, widest) == mw && ColumnsUpTo(st, text, k, if w > mw then w else mw)
  }

  lemma WidestMoves(st: Style, text: seq<nat>, k: nat, widest: nat, w: nat, mw: nat)
    requires k < |text| && WidestSoFar(st, text, k, widest, w, mw)
    ensures if text[k] == NEWLINE
            then WidestSoFar(st, text, k + 1, if w > mw then k else widest, 0, if w > mw then w else mw)
            else WidestSoFar(st, text, k + 1, widest, w + st.face(text[k]).width, mw)
  {
  }

  lemma WidestIs(st: Style, text: seq<nat>, widest: nat, w: nat, mw: nat)
    requires WidestSoFar(st, text, |text|, widest, w, mw)
    ensures IsWidth(st, text, if w > mw then w else mw)
  {
    assert Column(st, text, if w > mw then |text| else widest) == if w > mw then w else mw;
  }

  function Height(st: Style, text: seq<nat>): nat {
    var h := Row(st, text, |text|);
    if h == 0 then st.height else h
  }

  /** Measuring bounds drawing: whatever is drawn lies within the measured columns. */
  lemma InkWithinWidth(st: Style, text: seq<nat>, width: int, u: int, v: int)
    requires IsWidth(st, text, width) && Inked(st, text, u, v)
    ensures 0 <= u < width
  {
    var k: nat :| k < |text| && InksAt(st, text, u, v)(k);
    assert Column(st, text, k + 1) <= width;
  }

  lemma {:induction false} LineGrows(text: seq<nat>, k: nat, m: nat)
    requires k <= m <= |text|
    ensures Line(text, k) <= Line(text, m)
  {
    if k < m { LineGrows(text, k, m - 1); }
  }

  /** The measured height ends above the last line of a text of several lines, and only above that. */
  lemma InkBelowHeightIff(st: Style, text: seq<nat>, k: nat, u: int, v: int)
    requires k < |text| && Inks(st, text, k, u, v) && |st.face(text[k]).rows| <= st.height
    ensures v >= 0
    ensures v >= Height(st, text) <==> Line(text, |text|) > 0 && Line(text, k) == Line(text, |text|)
  {
    LineGrows(text, k, |text|);
    RowIs(st, text, k);
    RowIs(st, text, |text|);
    RowBeyond(Line(text, k), Line(text, |text|), st.height, v);
  }

  lemma RowBeyond(line: nat, last: nat, h: nat, v: int)
    requires line <= last && 0 <= v - line * h < h
    ensures v >= 0
    ensures v >= (if last * h == 0 then h else last * h) <==> last > 0 && line == last
  {
    MulMonotone(0, line, h);
    if line < last { MulMonotone(line + 1, last, h); }
    if last > 0 { MulMonotone(1, last, h); }
  }

  // Composition of texts.

  /** A single character sets the set bits of its rows, the top bit leftmost. */
  lemma OneCharacter(st: Style, wc: nat, u: int, v: int)
    requires wc != 10
    ensures Column(st, [wc], 1) == st.face(wc).width
    ensures Inked(st, [wc], u, v)
            <==> && 0 <= v < |st.face(wc).rows| && 0 <= u < st.face(wc).width && u < 32
                 && BitAt(st.face(wc).rows[v], 31 - u)
  {
    var inks := InksAt(st, [wc], u, v);
    assert Any(inks, 1) <==> inks(0);
  }

  /** Where the pen is after a text: lines are counted by their ends, and a line's width is that of its
      characters. */
  lemma PenAfter(st: Style, text: seq<nat>, wc: nat)
    ensures Column(st, [], 0) == 0 && Row(st, [], 0) == 0
    ensures Column(st, text + [wc], |text| + 1)
            == if wc == 10 then 0 else Column(st, text, |text|) + st.face(wc).width
    ensures Row(st, text + [wc], |text| + 1) == Row(st, text, |text|) + if wc == 10 then st.height else 0
  {
    PenBefore(st, text, [wc], |text|);
  }

  lemma {:induction false} PenBefore(st: Style, a: seq<nat>, b: seq<nat>, k: nat)
    requires k <= |a|
    ensures Column(st, a + b, k) == Column(st, a, k) && Row(st, a + b, k) == Row(st, a, k)
    decreases k
  {
    if k > 0 {
      assert (a + b)[k - 1] == a[k - 1];
      PenBefore(st, a, b, k - 1);
    }
  }

  /** b begins a line, or has a single one. */
  predicate Follows(st: Style, a: seq<nat>, b: seq<nat>) {
    Column(st, a, |a|) == 0 || 10 !in b
  }

  lemma {:induction false} PenBeyond(st: Style, a: seq<nat>, b: seq<nat>, k: nat)
    requires k <= |b| && Follows(st, a, b)
    ensures Column(st, a + b, |a| + k) == Column(st, a, |a|) + Column(st, b, k)
    ensures Row(st, a + b, |a| + k) == Row(st, a, |a|) + Row(st, b, k)
    decreases k
  {
    if k == 0 {
      PenBefore(st, a, b, |a|);
    } else {
      PenBeyond(st, a, b, k - 1);
      assert (a + b)[|a| + k - 1] == b[k - 1] && b[k - 1] in b;
    }
  }

  lemma InksBefore(st: Style, a: seq<nat>, b: seq<nat>, k: nat, u: int, v: int)
    requires k < |a|
    ensures Inks(st, a + b, k, u, v) <==> Inks(st, a, k, u, v)
  {
    PenBefore(st, a, b, k);
    assert (a + b)[k] == a[k];
  }

  lemma InksBeyond(st: Style, a: seq<nat>, b: seq<nat>, k: nat, u: int, v: int)
    requires k < |b| && Follows(st, a, b)
    ensures Inks(st, a + b, |a| + k, u, v)
            <==> Inks(st, b, k, u - Column(st, a, |a|), v - Row(st, a, |a|))
  {
    PenBeyond(st, a, b, k);
    assert (a + b)[|a| + k] == b[k];
    var x, y := u - Column(st, a + b, |a| + k), v - Row(st, a + b, |a| + k);
    assert Inks(st, a + b, |a| + k, u, v) == CharInk(st, b[k], x, y);
  }

  /** A text and one that follows it show side by side, or one below the other: the second starts
      where the pen is after the first. */
  lemma TextsCompose(st: Style, a: seq<nat>, b: seq<nat>, u: int, v: int)
    requires Column(st, a, |a|) == 0 || 10 !in b
    ensures Inked(st, a + b, u, v)
            <==> Inked(st, a, u, v) || Inked(st, b, u - Column(st, a, |a|), v - Row(st, a, |a|))
  {
    var x, y := u - Column(st, a, |a|), v - Row(st, a, |a|);
    var ab, ia, ib := InksAt(st, a + b, u, v), InksAt(st, a, u, v), InksAt(st, b, x, y);
    forall k: nat | k < |a| ensures ab(k) == ia(k) { InksBefore(st, a, b, k, u, v); }
    forall k: nat | k < |b| ensures ab(|a| + k) == ib(k) { InksBeyond(st, a, b, k, u, v); }
    AnyOfBoth(ab, ia, ib, |a|, |b|);
  }

  lemma AnyOfBoth(ab: nat -> bool, ia: nat -> bool, ib: nat -> bool, m: nat, n: nat)
    requires forall k: nat :: k < m ==> ab(k) == ia(k)
    requires forall k: nat :: k < n ==> ab(m + k) == ib(k)
    ensures Any(ab, m + n) <==> Any(ia, m) || Any(ib, n)
  {
    if Any(ab, m + n) {
      var j: nat :| j < m + n && ab(j);
      if j < m { assert ia(j); } else { assert ab(m + (j - m)) && ib(j - m); }
    }
    if Any(ia, m) {
      var j: nat :| j < m && ia(j);
      assert ab(j);
    }
    if Any(ib, n) {
      var j: nat :| j < n && ib(j);
      assert ab(m + j);
    }
  }

  // Plots.

  function RowPlots(g: U32, n: nat, x: int, y: int, c: Rgb): seq<Plot> {
    if n == 0 then [] else RowPlots(g, n - 1, x, y, c) + if Bit(g, n - 1) then [Plot(x + n - 1, y, c)] else []
  }

  function GlyphPlots(rows: seq<U32>, w: nat, n: nat, x: int, y: int, c: Rgb): seq<Plot>
    requires n <= |rows|
  {
    if n == 0 then [] else GlyphPlots(rows, w, n - 1, x, y, c) + RowPlots(rows[n - 1], w, x, y + n - 1, c)
  }

  /** What character k plots. */
  function CharPlots(st: Style, text: seq<nat>, k: nat, x: int, y: int, c: Rgb): seq<Plot>
    requires k < |text|
  {
    if text[k] == NEWLINE then []
    else GlyphPlots(st.face(text[k]).rows, st.face(text[k]).width, |st.face(text[k]).rows|,
                    x + Column(st, text, k), y + Row(st, text, k), c)
  }

  /** What each character of a text plots. */
  function TextPlots(st: Style, text: seq<nat>, x: int, y: int, c: Rgb): nat -> seq<Plot> {
    (k: nat) => if k < |text| then CharPlots(st, text, k, x, y, c) else []
  }

  function Concat(ps: nat -> seq<Plot>, k: nat): seq<Plot> {
    if k == 0 then [] else Concat(ps, k - 1) + ps(k - 1)
  }

  lemma {:induction false} LastPlotAppend(a: seq<Plot>, b: seq<Plot>, u: int, v: int)
    ensures LastPlot(a + b, u, v) == if LastPlot(b, u, v).Painted? then LastPlot(b, u, v) else LastPlot(a, u, v)
    decreases |b|
  {
    if b == [] {
      assert a + b == a;
    } else {
      assert (a + b)[..|a + b| - 1] == a + b[..|b| - 1];
      LastPlotAppend(a, b[..|b| - 1], u, v);
    }
  }

  function Ink(inked: bool, c: Rgb): Colour { if inked then Painted(c) else Unpainted }

  lemma InkAppend(a: seq<Plot>, b: seq<Plot>, c: Rgb, u: int, v: int, inA: bool, inB: bool)
    requires LastPlot(a, u, v) == Ink(inA, c) && LastPlot(b, u, v) == Ink(inB, c)
    ensures LastPlot(a + b, u, v) == Ink(inA || inB, c)
  {
    LastPlotAppend(a, b, u, v);
  }

  lemma {:induction false} RowShows(g: U32, n: nat, x: int, y: int, c: Rgb, u: int, v: int)
    ensures LastPlot(RowPlots(g, n, x, y, c), u, v) == Ink(v == y && 0 <= u - x < n && Bit(g, u - x), c)
  {
    if n > 0 {
      RowShows(g, n - 1, x, y, c, u, v);
      LastPlotAppend(RowPlots(g, n - 1, x, y, c), if Bit(g, n - 1) then [Plot(x + n - 1, y, c)] else [], u, v);
    }
  }

  lemma {:induction false} GlyphShows(rows: seq<U32>, w: nat, n: nat, x: int, y: int, c: Rgb, u: int, v: int)
    requires n <= |rows|
    ensures LastPlot(GlyphPlots(rows, w, n, x, y, c), u, v) == Ink(GlyphInk(rows, w, n, u - x, v - y), c)
  {
    if n > 0 {
      GlyphShows(rows, w, n - 1, x, y, c, u, v);
      RowShows(rows[n - 1], w, x, y + n - 1, c, u, v);
      InkAppend(GlyphPlots(rows, w, n - 1, x, y, c), RowPlots(rows[n - 1], w, x, y + n - 1, c), c, u, v,
                GlyphInk(rows, w, n - 1, u - x, v - y), v == y + n - 1 && 0 <= u - x < w && Bit(rows[n - 1], u - x));
      GlyphInkMore(rows, w, n, u - x, v - y);
    }
  }

  lemma GlyphInkMore(rows: seq<U32>, w: nat, n: nat, u: int, v: int)
    requires 0 < n <= |rows|
    ensures GlyphInk(rows, w, n, u, v)
            <==> GlyphInk(rows, w, n - 1, u, v) || (v == n - 1 && 0 <= u < w && Bit(rows[n - 1], u))
  {
  }

  lemma CharacterShows(st: Style, text: seq<nat>, k: nat, x: int, y: int, c: Rgb, u: int, v: int)
    requires k < |text|
    ensures LastPlot(CharPlots(st, text, k, x, y, c), u, v) == Ink(Inks(st, text, k, u - x, v - y), c)
  {
    if text[k] != NEWLINE {
      GlyphShows(st.face(text[k]).rows, st.face(text[k]).width, |st.face(text[k]).rows|,
                 x + Column(st, text, k), y + Row(st, text, k), c, u, v);
    }
  }

  predicate Any(inks: nat -> bool, k: nat) { exists j: nat :: j < k && inks(j) }

  lemma {:induction false} ConcatShows(ps: nat -> seq<Plot>, inks: nat -> bool, k: nat, c: Rgb, u: int, v: int)
    requires forall j: nat :: j < k ==> LastPlot(ps(j), u, v) == Ink(inks(j), c)
    ensures LastPlot(Concat(ps, k), u, v) == Ink(Any(inks, k), c)
  {
    if k > 0 {
      ConcatShows(ps, inks, k - 1, c, u, v);
      LastPlotAppend(Concat(ps, k - 1), ps(k - 1), u, v);
      assert Any(inks, k) <==> Any(inks, k - 1) || inks(k - 1);
    }
  }

  lemma TextShows(st: Style, text: seq<nat>, x: int, y: int, c: Rgb, u: int, v: int)
    ensures LastPlot(Concat(TextPlots(st, text, x, y, c), |text|), u, v)
            == Ink(Inked(st, text, u - x, v - y), c)
  {
    var ps, inks := TextPlots(st, text, x, y, c), InksAt(st, text, u - x, v - y);
    forall j: nat | j < |text| ensures LastPlot(ps(j), u, v) == Ink(inks(j), c) {
      CharacterShows(st, text, j, x, y, c, u, v);
    }
    ConcatShows(ps, inks, |text|, c, u, v);
  }

  /** What a drawn text is to show. */
  ghost function TextWant(st: Style, text: seq<nat>, x: int, y: int, c: Rgb): (int, int) -> Colour {
    (u, v) => Ink(Inked(st, text, u - x, v - y), c)
  }

  lemma TextWantAt(st: Style, text: seq<nat>, x: int, y: int, c: Rgb, u: int, v: int, shown: Colour)
    requires shown == Ink(Inked(st, text, u - x, v - y), c)
    ensures TextWant(st, text, x, y, c)(u, v) == shown
  {
  }

  lemma TextWanted(st: Style, text: seq<nat>, x: int, y: int, c: Rgb, u: int, v: int)
    ensures LastPlot(Concat(TextPlots(st, text, x, y, c), |text|), u, v) == TextWant(st, text, x, y, c)(u, v)
  {
    TextShows(st, text, x, y, c, u, v);
    TextWantAt(st, text, x, y, c, u, v, LastPlot(Concat(TextPlots(st, text, x, y, c), |text|), u, v));
  }

  lemma TextIsExact(sh: Shape, d: Bytes, st: Style, text: seq<nat>, x: int, y: int, c: Rgb)
    requires Backed(sh, d)
    ensures Shows(sh, d, Paint(sh, d, Concat(TextPlots(st, text, x, y, c), |text|)), TextWant(st, text, x, y, c))
  {
    var want := TextWant(st, text, x, y, c);
    forall u, v | OnCanvas(sh, u, v)
      ensures LastPlot(Concat(TextPlots(st, text, x, y, c), |text|), u, v) == want(u, v)
    {
      TextWanted(st, text, x, y, c, u, v);
    }
    PaintShows(sh, d, Concat(TextPlots(st, text, x, y, c), |text|), want);
  }

  // Shifts.

  /** The bit pattern after cx shifts to the left. */
  function Shifted(g: U32, cx: nat): U32 {
    if cx == 0 then g else Shifted(g, cx - 1) * 2 % 0x1_0000_0000
  }

  lemma TopPowers()
    ensures Pow2(31) == 0x8000_0000 && Pow2(32) == 0x1_0000_0000
  {
    SmallPowers();
    PowAdd(16, 16);
  }

  /** The top bit after cx shifts is bit cx from the left. */
  lemma ShiftedTop(g: U32, cx: nat)
    ensures Shifted(g, cx) >= 0x8000_0000 <==> Bit(g, cx)
  {
    TopPowers();
    HighestBit(Shifted(g, cx), 31);
    ShiftedBit(g, cx, 31);
  }

  lemma {:induction false} HighestBit(g: nat, n: nat)
    requires g < 2 * Pow2(n)
    ensures BitAt(g, n) <==> g >= Pow2(n)
  {
    if n > 0 { HighestBit(g / 2, n - 1); }
  }

  lemma {:induction false} BitBelow(g: nat, m: nat, n: nat)
    requires n < m && g >= Pow2(m)
    ensures BitAt(g - Pow2(m), n) == BitAt(g, n)
  {
    if n > 0 {
      assert (g - Pow2(m)) / 2 == g / 2 - Pow2(m - 1);
      BitBelow(g / 2, m - 1, n - 1);
    }
  }

  lemma {:induction false} ShiftedBit(g: U32, cx: nat, n: nat)
    requires n < 32
    ensures BitAt(Shifted(g, cx), n) <==> n >= cx && BitAt(g, n - cx)
  {
    if cx > 0 {
      var h := Shifted(g, cx - 1) * 2;
      assert h / 2 == Shifted(g, cx - 1);
      DroppedBit(h, n);
      if n > 0 { ShiftedBit(g, cx - 1, n - 1); }
    }
  }

  lemma DroppedBit(h: nat, n: nat)
    requires n < 32 && h < 2 * 0x1_0000_0000
    ensures BitAt(h % 0x1_0000_0000, n) == BitAt(h, n)
  {
    TopPowers();
    if h >= Pow2(32) { BitBelow(h, 32, n); }
  }

  lemma {:induction false} PowAdd(a: nat, b: nat)
    ensures Pow2(a + b) == Pow2(a) * Pow2(b)
  {
    if a > 0 { PowAdd(a - 1, b); }
  }

  // The pen.

  predicate PenAt(st: Style, text: seq<nat>, k: nat, dx: nat, dy: nat)
    requires k <= |text|
  {
    dx == Column(st, text, k) && dy == Row(st, text, k)
  }

  lemma PenMoves(st: Style, text: seq<nat>, k: nat, dx: nat, dy: nat)
    requires k < |text| && PenAt(st, text, k, dx, dy)
    ensures if text[k] == NEWLINE then PenAt(st, text, k + 1, 0, dy + st.height)
            else PenAt(st, text, k + 1, dx + st.face(text[k]).width, dy)
  {
  }

  lemma PlotsMore(st: Style, text: seq<nat>, k: nat, x: int, y: int, c: Rgb)
    requires k < |text|
    ensures var ps := TextPlots(st, text, x, y, c);
            Concat(ps, k + 1) == Concat(ps, k) + CharPlots(st, text, k, x, y, c)
  {
  }
}
