/** psplash-draw.c: looking up glyphs, measuring a text and drawing it. */
module PsplashText {
  import opened Wrappers
  import opened Words
  import opened Sequences
  import opened PsplashCanvas
  import opened PsplashPainting
  import opened PsplashDrawing
  import opened PsplashLayout

  datatype Font = Font(height: nat, indexMask: nat, offset: seq<nat>, index: seq<nat>, content: seq<U32>)

  /** Bitwise and. */
  function And(a: nat, b: nat): (r: nat)
    ensures r <= a && r <= b
  {
    if a == 0 || b == 0 then 0 else 2 * And(a / 2, b / 2) + if a % 2 == 1 && b % 2 == 1 then 1 else 0
  }

  function AndNot(a: nat, b: nat): nat { a - And(a, b) }

  // Glyphs.

  predicate Matches(font: Font, wc: nat, i: nat)
    requires i < |font.index|
  {
    AndNot(font.index[i], font.indexMask) == AndNot(wc, font.indexMask)
  }

  /** The first index entry from i on, in steps of two, that matches before a zero entry. */
  function Find(font: Font, wc: nat, i: nat): (r: Option<nat>)
    ensures r.Some? ==> i <= r.value < |font.index| - 1
    decreases |font.index| - i
  {
    if i + 1 >= |font.index| || font.index[i] == 0 then None
    else if Matches(font, wc, i) then Some(i)
    else Find(font, wc, i + 2)
  }

  function Lookup(font: Font, wc: nat): (r: Option<nat>)
    ensures r.Some? ==> r.value + 1 < |font.index| && And(wc, font.indexMask) < |font.offset|
  {
    if And(wc, font.indexMask) < |font.offset| then Find(font, wc, font.offset[And(wc, font.indexMask)]) else None
  }

  /** The font has a glyph for wc, with a bitmap of full height. */
  predicate HasGlyph(font: Font, wc: nat) {
    var i := Lookup(font, wc);
    i.Some? && font.index[i.value + 1] + font.height <= |font.content|
  }

  function GlyphWidth(font: Font, wc: nat): nat
    requires HasGlyph(font, wc)
  {
    And(font.index[Lookup(font, wc).value], font.indexMask)
  }

  /** The rows of the glyph's bitmap. */
  function Bitmap(font: Font, wc: nat): (rows: seq<U32>)
    requires HasGlyph(font, wc)
    ensures |rows| == font.height
  {
    var at := font.index[Lookup(font, wc).value + 1];
    font.content[at..at + font.height]
  }

  /** psplash_font_glyph: the width and where the bitmap starts. */
  method FontGlyph(font: Font, wc: nat) returns (width: nat, at: nat)
    requires HasGlyph(font, wc)
    ensures width == GlyphWidth(font, wc)
    ensures at + font.height <= |font.content| && font.content[at..at + font.height] == Bitmap(font, wc)
  {
    var i := font.offset[And(wc, font.indexMask)];
    while font.index[i] != 0 && !Matches(font, wc, i)
      invariant Find(font, wc, i) == Lookup(font, wc)
      decreases |font.index| - i
    {
      i := i + 2;
    }
    width, at := And(font.index[i], font.indexMask), font.index[i + 1];
  }

  predicate Drawable(font: Font, text: seq<nat>) {
    forall k :: 0 <= k < |text| ==> text[k] == NEWLINE || HasGlyph(font, text[k])
  }

  /** The glyph the layout sees for each code point. */
  function FaceOf(font: Font, wc: nat): (g: Glyph)
    ensures |g.rows| <= font.height
  {
    if HasGlyph(font, wc) then Glyph(GlyphWidth(font, wc), Bitmap(font, wc)) else Glyph(0, [])
  }

  function StyleOf(font: Font): (st: Style)
    ensures st.height == font.height && forall wc :: |st.face(wc).rows| <= st.height
  {
    Style((wc: nat) => FaceOf(font, wc), font.height)
  }

  /** Every character must be a newline or have a glyph. */
  lemma DrawableIff(font: Font, text: seq<nat>)
    ensures Drawable(font, text) <==> forall wc :: wc in text ==> wc == 10 || HasGlyph(font, wc)
  {
  }

  lemma FaceIs(font: Font, wc: nat)
    requires HasGlyph(font, wc)
    ensures StyleOf(font).face(wc) == Glyph(GlyphWidth(font, wc), Bitmap(font, wc))
  {
  }

  /** psplash_text_size */
  method TextSize(font: Font, text: seq<nat>) returns (width: int, height: int)
    requires Drawable(font, text)
    ensures IsWidth(StyleOf(font), text, width)
    ensures forall k :: 0 <= k <= |text| ==> Column(StyleOf(font), text, k) <= width
    ensures exists k :: 0 <= k <= |text| && Column(StyleOf(font), text, k) == width
    ensures height == Height(StyleOf(font), text)
  {
    ghost var st := StyleOf(font);
    var k, w, mw := 0, 0, 0;
    var h: nat := 0;
    ghost var widest := 0;
    while k < |text|
      invariant 0 <= k <= |text| && PenAt(st, text, k, w, h)
      invariant WidestSoFar(st, text, k, widest, w, mw)
    {
      PenMoves(st, text, k, w, h);
      WidestMoves(st, text, k, widest, w, mw);
      if text[k] == NEWLINE {
        if w > mw { mw, widest := w, k; }
        w := 0;
        h := h + font.height;
      } else {
        FaceIs(font, text[k]);
        var glyphWidth, _ := FontGlyph(font, text[k]);
        w := w + glyphWidth;
      }
      k := k + 1;
    }
    width := if w > mw then w else mw;
    height := if h == 0 then font.height else h;
    WidestIs(st, text, widest, w, mw);
  }

  function Slot(i: nat, k: nat): nat { i + 2 * k }

  predicate Skips(font: Font, wc: nat, m: nat) {
    m + 1 < |font.index| && font.index[m] != 0 && !Matches(font, wc, m)
  }

  predicate AllSkip(font: Font, wc: nat, i: nat, k: nat) { forall j: nat :: j < k ==> Skips(font, wc, Slot(i, j)) }

  lemma AllSkipShift(font: Font, wc: nat, i: nat, k: nat)
    requires k > 0
    ensures AllSkip(font, wc, i, k) <==> Skips(font, wc, i) && AllSkip(font, wc, i + 2, k - 1)
  {
    assert Slot(i, 0) == i;
    var next := i + 2;
    if AllSkip(font, wc, i, k) {
      forall j: nat | j < k - 1 ensures Skips(font, wc, Slot(next, j)) { assert Slot(next, j) == Slot(i, j + 1); }
    }
    if Skips(font, wc, i) && AllSkip(font, wc, next, k - 1) {
      forall j: nat | j < k ensures Skips(font, wc, Slot(i, j)) {
        if j > 0 { assert Slot(i, j) == Slot(next, j - 1); }
      }
    }
  }

  /** Find yields the first matching entry of its group, and only that. */
  lemma {:induction false} FindIsFirst(font: Font, wc: nat, i: nat, k: nat)
    ensures Slot(i, k) == i + 2 * k
    ensures Find(font, wc, i) == Some(Slot(i, k))
            <==> && Slot(i, k) + 1 < |font.index| && font.index[Slot(i, k)] != 0 && Matches(font, wc, Slot(i, k))
                 && AllSkip(font, wc, i, k)
    decreases k
  {
    if k > 0 {
      AllSkipShift(font, wc, i, k);
      assert Slot(i, k) == Slot(i + 2, k - 1);
      if Skips(font, wc, i) { FindIsFirst(font, wc, i + 2, k - 1); }
    }
  }

  lemma {:induction false} AndBits(a: nat, b: nat, n: nat)
    ensures BitAt(And(a, b), n) <==> BitAt(a, n) && BitAt(b, n)
    decreases a + b, n
  {
    if a == 0 || b == 0 {
      ZeroHasNoBits(n);
    } else {
      assert And(a, b) / 2 == And(a / 2, b / 2) && (And(a, b) % 2 == 1 <==> a % 2 == 1 && b % 2 == 1);
      if n > 0 { AndBits(a / 2, b / 2, n - 1); }
    }
  }

  /** The group to search is the one of the masked code, an entry matches if the other bits agree, the
      width is in the masked bits of the entry, and the rows are where the next word says. */
  lemma GlyphLayout(font: Font, wc: nat, r: nat)
    requires And(wc, font.indexMask) < |font.offset|
    requires Find(font, wc, font.offset[And(wc, font.indexMask)]) == Some(r)
    requires font.index[r + 1] + font.height <= |font.content|
    ensures HasGlyph(font, wc) && GlyphWidth(font, wc) == And(font.index[r], font.indexMask)
    ensures Bitmap(font, wc) == font.content[font.index[r + 1]..font.index[r + 1] + font.height]
    ensures font.index[r] - And(font.index[r], font.indexMask) == wc - And(wc, font.indexMask)
  {
    FindMatches(font, wc, font.offset[And(wc, font.indexMask)], r);
  }

  lemma {:induction false} FindMatches(font: Font, wc: nat, i: nat, r: nat)
    requires Find(font, wc, i) == Some(r)
    ensures Matches(font, wc, r) && font.index[r] != 0
    decreases |font.index| - i
  {
    if !Matches(font, wc, i) { FindMatches(font, wc, i + 2, r); }
  }

  // Drawing.

  /** One row of a glyph's bitmap. */
  method DrawRow(canvas: Canvas, g0: U32, w: nat, x: int, y: int, c: Rgb, ghost before: Bytes, ghost drawn: seq<Plot>)
    requires canvas.Valid() && Backed(canvas.shape, before) && canvas.data[..] == Paint(canvas.shape, before, drawn)
    modifies canvas.data
    ensures canvas.Valid()
    ensures canvas.data[..] == Paint(canvas.shape, before, drawn + RowPlots(g0, w, x, y, c))
  {
    var g: U32 := g0;
    var cx := 0;
    assert drawn + [] == drawn;
    while cx < w
      invariant 0 <= cx <= w && g == Shifted(g0, cx) && canvas.Valid()
      invariant canvas.data[..] == Paint(canvas.shape, before, drawn + RowPlots(g0, cx, x, y, c))
    {
      ShiftedTop(g0, cx);
      AppendPlots(drawn, RowPlots(g0, cx, x, y, c), Plot(x + cx, y, c));
      if g >= 0x8000_0000 {
        PaintMore(canvas.shape, before, drawn + RowPlots(g0, cx, x, y, c), Plot(x + cx, y, c));
        canvas.PlotPixel(x + cx, y, c);
      }
      g := g * 2 % 0x1_0000_0000;
      cx := cx + 1;
    }
  }

  lemma AppendPlots(a: seq<Plot>, b: seq<Plot>, p: Plot)
    ensures a + (b + [p]) == a + b + [p] && a + (b + []) == a + b
  {
  }

  /** The bitmap of one glyph. */
  method DrawGlyph(canvas: Canvas, rows: seq<U32>, w: nat, x: int, y: int, c: Rgb,
                   ghost before: Bytes, ghost drawn: seq<Plot>)
    requires canvas.Valid() && Backed(canvas.shape, before) && canvas.data[..] == Paint(canvas.shape, before, drawn)
    modifies canvas.data
    ensures canvas.Valid()
    ensures canvas.data[..] == Paint(canvas.shape, before, drawn + GlyphPlots(rows, w, |rows|, x, y, c))
  {
    var cy := 0;
    Regroup(drawn, [], []);
    while cy < |rows|
      invariant 0 <= cy <= |rows| && canvas.Valid()
      invariant canvas.data[..] == Paint(canvas.shape, before, drawn + GlyphPlots(rows, w, cy, x, y, c))
    {
      Regroup(drawn, GlyphPlots(rows, w, cy, x, y, c), RowPlots(rows[cy], w, x, y + cy, c));
      DrawRow(canvas, rows[cy], w, x, y + cy, c, before, drawn + GlyphPlots(rows, w, cy, x, y, c));
      cy := cy + 1;
    }
  }

  /** One character of the text, and where the next one goes. */
  method DrawCharacter(canvas: Canvas, font: Font, text: seq<nat>, k: nat, x: int, y: int, c: Rgb, dx0: nat, dy0: nat,
                       ghost before: Bytes, ghost drawn: seq<Plot>)
    returns (dx: nat, dy: nat)
    requires Drawable(font, text) && k < |text| && PenAt(StyleOf(font), text, k, dx0, dy0)
    requires canvas.Valid() && Backed(canvas.shape, before) && canvas.data[..] == Paint(canvas.shape, before, drawn)
    modifies canvas.data
    ensures canvas.Valid()
    ensures canvas.data[..] == Paint(canvas.shape, before, drawn + CharPlots(StyleOf(font), text, k, x, y, c))
    ensures PenAt(StyleOf(font), text, k + 1, dx, dy)
  {
    PenMoves(StyleOf(font), text, k, dx0, dy0);
    if text[k] == NEWLINE {
      Regroup(drawn, [], []);
      dx, dy := 0, dy0 + font.height;
    } else {
      FaceIs(font, text[k]);
      var w, at := FontGlyph(font, text[k]);
      var rows := font.content[at..at + font.height];
      assert CharPlots(StyleOf(font), text, k, x, y, c) == GlyphPlots(rows, w, |rows|, x + dx0, y + dy0, c);
      DrawGlyph(canvas, rows, w, x + dx0, y + dy0, c, before, drawn);
      dx, dy := dx0 + w, dy0;
    }
  }

  lemma PlotsStart(sh: Shape, d: Bytes, font: Font, text: seq<nat>, ps: nat -> seq<Plot>)
    requires Backed(sh, d) && Drawable(font, text)
    ensures PenAt(StyleOf(font), text, 0, 0, 0) && Paint(sh, d, Concat(ps, 0)) == d
  {
  }

  /** The loop over the characters. */
  method DrawCharacters(canvas: Canvas, font: Font, text: seq<nat>, x: int, y: int, c: Rgb, ghost ps: nat -> seq<Plot>)
    requires canvas.Valid() && Drawable(font, text) && ps == TextPlots(StyleOf(font), text, x, y, c)
    modifies canvas.data
    ensures canvas.Valid() && canvas.data[..] == Paint(canvas.shape, old(canvas.data[..]), Concat(ps, |text|))
  {
    ghost var before := canvas.data[..];
    PlotsStart(canvas.shape, before, font, text, ps);
    var k, dx, dy: nat := 0, 0, 0;
    while k < |text|
      invariant k <= |text| && PenAt(StyleOf(font), text, k, dx, dy)
      invariant canvas.Valid() && canvas.data[..] == Paint(canvas.shape, before, Concat(ps, k))
    {
      PlotsMore(StyleOf(font), text, k, x, y, c);
      dx, dy := DrawCharacter(canvas, font, text, k, x, y, c, dx, dy, before, Concat(ps, k));
      k := k + 1;
    }
  }

  /** psplash_draw_text */
  method DrawText(canvas: Canvas, font: Font, text: seq<nat>, x: int, y: int, c: Rgb)
    requires canvas.Valid() && Drawable(font, text)
    modifies canvas.data
    ensures canvas.Valid()
    ensures Shows(canvas.shape, old(canvas.data[..]), canvas.data[..], TextWant(StyleOf(font), text, x, y, c))
  {
    TextIsExact(canvas.shape, canvas.data[..], StyleOf(font), text, x, y, c);
    DrawCharacters(canvas, font, text, x, y, c, TextPlots(StyleOf(font), text, x, y, c));
  }
}
