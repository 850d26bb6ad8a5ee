/** psplash-draw.c: plotting into the canvas, rectangles, and the run-length image decoder that
    draws while it decodes. */
module PsplashDrawing {
  import opened Wrappers
  import opened Words
  import opened PsplashCanvas
  import opened PsplashPainting
  import opened PsplashRle

  // Rectangles.

  function Positive(n: int): nat { if n < 0 then 0 else n }

  /** The first n pixels of a rectangle in drawing order. */
  function RectPlots(x: int, y: int, width: int, n: nat, c: Rgb): (ps: seq<Plot>)
    ensures width > 0 ==> |ps| == n
  {
    if width <= 0 then [] else seq(n, i => Plot(x + i % width, y + i / width, c))
  }

  predicate InRect(x: int, y: int, width: int, height: int, u: int, v: int) {
    x <= u < x + width && y <= v < y + height
  }

  lemma RowMajor(width: int, row: int, col: int)
    requires 0 <= col < width && 0 <= row
    ensures 0 <= row * width + col && (row * width + col) / width == row && (row * width + col) % width == col
  {
    MulMonotone(0, row, width);
    var i := row * width + col;
    var q, r := i / width, i % width;
    assert i == q * width + r;
    if q < row { MulMonotone(q + 1, row, width); }
    if q > row { MulMonotone(row + 1, q, width); }
  }

  lemma {:induction false} LastPlotOf(ps: seq<Plot>, u: int, v: int)
    ensures LastPlot(ps, u, v) == Unpainted ==> forall i :: 0 <= i < |ps| ==> (ps[i].x, ps[i].y) != (u, v)
    ensures LastPlot(ps, u, v).Painted? ==>
              exists i :: 0 <= i < |ps| && (ps[i].x, ps[i].y) == (u, v) && ps[i].colour == LastPlot(ps, u, v).colour
    decreases |ps|
  {
    if ps != [] { LastPlotOf(ps[..|ps| - 1], u, v); }
  }

  lemma InsideByIndex(width: int, height: int, i: int)
    requires width > 0 && height > 0 && 0 <= i < width * height
    ensures 0 <= i % width < width && 0 <= i / width < height
  {
    if i / width >= height { MulMonotone(height, i / width, width); }
    if i / width < 0 { MulMonotone(i / width + 1, 0, width); }
  }

  /** The plots of a rectangle paint exactly its pixels. */
  lemma RectPlotsPaintRect(x: int, y: int, width: int, height: int, c: Rgb, u: int, v: int)
    requires width > 0 && height > 0
    ensures LastPlot(RectPlots(x, y, width, width * height, c), u, v)
            == if InRect(x, y, width, height, u, v) then Painted(c) else Unpainted
  {
    var ps := RectPlots(x, y, width, width * height, c);
    LastPlotOf(ps, u, v);
    if InRect(x, y, width, height, u, v) {
      RectHits(x, y, width, height, c, u, v);
    } else if LastPlot(ps, u, v).Painted? {
      var i :| 0 <= i < |ps| && (ps[i].x, ps[i].y) == (u, v);
      InsideByIndex(width, height, i);
    }
  }

  lemma RectHits(x: int, y: int, width: int, height: int, c: Rgb, u: int, v: int)
    requires width > 0 && height > 0 && InRect(x, y, width, height, u, v)
    ensures Plot(u, v, c) in RectPlots(x, y, width, width * height, c)
  {
    var i := (v - y) * width + (u - x);
    RowMajor(width, v - y, u - x);
    MulMonotone(v - y + 1, height, width);
    assert RectPlots(x, y, width, width * height, c)[i] == Plot(u, v, c);
  }

  lemma PaintMore(sh: Shape, d: Bytes, ps: seq<Plot>, p: Plot)
    requires Backed(sh, d)
    ensures Paint(sh, d, ps + [p]) == Plotted(sh, Paint(sh, d, ps), p)
  {
    assert (ps + [p])[..|ps|] == ps;
  }

  /** The buffer after dy full lines and dx pixels of a rectangle. */
  function RectSoFar(sh: Shape, d: Bytes, x: int, y: int, width: int, c: Rgb, dy: nat, dx: nat): (e: Bytes)
    requires Backed(sh, d) && dx <= Positive(width)
    ensures |e| == |d|
  {
    Paint(sh, d, RectPlots(x, y, Positive(width), dy * Positive(width) + dx, c))
  }

  lemma RectNothing(sh: Shape, d: Bytes, x: int, y: int, width: int, c: Rgb)
    requires Backed(sh, d)
    ensures RectSoFar(sh, d, x, y, width, c, 0, 0) == d
  {
  }

  lemma RectPixel(sh: Shape, d: Bytes, x: int, y: int, width: int, c: Rgb, dy: nat, dx: nat)
    requires Backed(sh, d) && dx < width
    ensures RectSoFar(sh, d, x, y, width, c, dy, dx + 1)
            == Plotted(sh, RectSoFar(sh, d, x, y, width, c, dy, dx), Plot(x + dx, y + dy, c))
  {
    RowMajor(width, dy, dx);
    var n := dy * width + dx;
    assert RectPlots(x, y, width, n + 1, c) == RectPlots(x, y, width, n, c) + [Plot(x + dx, y + dy, c)];
    PaintMore(sh, d, RectPlots(x, y, width, n, c), Plot(x + dx, y + dy, c));
  }

  lemma RectLine(sh: Shape, d: Bytes, x: int, y: int, width: int, c: Rgb, dy: nat)
    requires Backed(sh, d)
    ensures RectSoFar(sh, d, x, y, width, c, dy + 1, 0) == RectSoFar(sh, d, x, y, width, c, dy, Positive(width))
  {
    var w := Positive(width);
    assert (dy + 1) * w + 0 == dy * w + w;
  }

  /** What a rectangle is to show. */
  function RectWant(x: int, y: int, width: int, height: int, c: Rgb): (int, int) -> Colour {
    (u, v) => if InRect(x, y, width, height, u, v) then Painted(c) else Unpainted
  }

  /** A drawn rectangle shows its colour on exactly its pixels inside the canvas. */
  lemma RectIsExact(sh: Shape, d: Bytes, x: int, y: int, width: int, height: int, c: Rgb)
    requires Backed(sh, d)
    ensures Shows(sh, d, RectSoFar(sh, d, x, y, width, c, Positive(height), 0),
                  RectWant(x, y, width, height, c))
  {
    var ps := RectPlots(x, y, Positive(width), Positive(height) * Positive(width) + 0, c);
    var want := RectWant(x, y, width, height, c);
    forall u, v | OnCanvas(sh, u, v) ensures LastPlot(ps, u, v) == want(u, v) {
      if width > 0 && height > 0 {
        assert Positive(height) * Positive(width) + 0 == width * height;
        RectPlotsPaintRect(x, y, width, height, c, u, v);
      } else {
        assert ps == [];
      }
    }
    PaintShows(sh, d, ps, want);
  }

  // Images.

  /** Pixels per image line: the smallest count whose bytes reach the row stride, at least one. */
  function LineLength(bytesPerPixel: nat, rowstride: int): (w: nat)
    requires bytesPerPixel > 0
    ensures w > 0
  {
    if rowstride <= bytesPerPixel then 1 else (rowstride + bytesPerPixel - 1) / bytesPerPixel
  }

  lemma LineEnds(bytesPerPixel: nat, rowstride: int, dx: nat)
    requires bytesPerPixel > 0 && dx < LineLength(bytesPerPixel, rowstride)
    ensures (dx + 1) * bytesPerPixel >= rowstride <==> dx + 1 == LineLength(bytesPerPixel, rowstride)
  {
    var w := LineLength(bytesPerPixel, rowstride);
    if rowstride > bytesPerPixel {
      var q, r := (rowstride + bytesPerPixel - 1) / bytesPerPixel, (rowstride + bytesPerPixel - 1) % bytesPerPixel;
      assert rowstride + bytesPerPixel - 1 == q * bytesPerPixel + r;
      if dx + 1 < w { MulMonotone(dx + 2, w, bytesPerPixel); }
    }
  }

  /** The plots a decoded image makes: pixel k at column k mod w and row k div w, unless it is
      transparent or lies in the padding columns beyond the image width. */
  function ImagePlots(x: int, y: int, imgWidth: int, w: nat, ts: seq<Texel>): seq<Plot>
    requires w > 0
  {
    if ts == [] then []
    else
      var k := |ts| - 1;
      ImagePlots(x, y, imgWidth, w, ts[..k])
      + if ts[k].visible && k % w < imgWidth then [Plot(x + k % w, y + k / w, ts[k].colour)] else []
  }

  /** What a decoded image is to show at a canvas pixel. */
  function ImageColour(x: int, y: int, imgWidth: int, w: nat, ts: seq<Texel>, u: int, v: int): Colour {
    var dx, dy := u - x, v - y;
    if 0 <= dx < w && dx < imgWidth && 0 <= dy && dy * w + dx < |ts| then
      MulMonotone(0, dy, w);
      var t := ts[dy * w + dx];
      if t.visible then Painted(t.colour) else Unpainted
    else Unpainted
  }

  /** Position in the image and index in the stream determine each other. */
  lemma IndexIsPosition(w: nat, k: nat, dx: int, dy: int)
    requires w > 0
    ensures (dx, dy) == (k % w, k / w) <==> 0 <= dx < w && 0 <= dy && dy * w + dx == k
  {
    assert k == k / w * w + k % w;
    if 0 <= dx < w && 0 <= dy { RowMajor(w, dy, dx); }
  }

  lemma ImageColourGrows(x: int, y: int, imgWidth: int, w: nat, ts: seq<Texel>, u: int, v: int)
    requires w > 0 && ts != []
    ensures var k := |ts| - 1;
            ImageColour(x, y, imgWidth, w, ts, u, v)
            == if (u - x, v - y) == (k % w, k / w) && k % w < imgWidth
               then if ts[k].visible then Painted(ts[k].colour) else Unpainted
               else ImageColour(x, y, imgWidth, w, ts[..k], u, v)
  {
    IndexIsPosition(w, |ts| - 1, u - x, v - y);
    if 0 <= u - x < w && 0 <= v - y { MulMonotone(0, v - y, w); }
  }

  lemma ImageColourUnset(x: int, y: int, imgWidth: int, w: nat, ts: seq<Texel>, u: int, v: int)
    requires w > 0 && (u - x, v - y) == (|ts| % w, |ts| / w)
    ensures ImageColour(x, y, imgWidth, w, ts, u, v) == Unpainted
  {
    IndexIsPosition(w, |ts|, u - x, v - y);
  }

  /** The plots of a decoded image paint exactly the image. */
  lemma {:induction false} ImagePlotsPaintImage(x: int, y: int, imgWidth: int, w: nat, ts: seq<Texel>, u: int, v: int)
    requires w > 0
    ensures LastPlot(ImagePlots(x, y, imgWidth, w, ts), u, v) == ImageColour(x, y, imgWidth, w, ts, u, v)
    decreases |ts|
  {
    if ts == [] {
      if 0 <= u - x < w && 0 <= v - y { MulMonotone(0, v - y, w); }
    } else {
      var k := |ts| - 1;
      var init := ImagePlots(x, y, imgWidth, w, ts[..k]);
      ImagePlotsPaintImage(x, y, imgWidth, w, ts[..k], u, v);
      ImageColourGrows(x, y, imgWidth, w, ts, u, v);
      var ps := ImagePlots(x, y, imgWidth, w, ts);
      if ts[k].visible && k % w < imgWidth {
        assert ps[..|ps| - 1] == init;
      } else {
        assert ps == init;
        if (u - x, v - y) == (k % w, k / w) { ImageColourUnset(x, y, imgWidth, w, ts[..k], u, v); }
      }
    }
  }

  /** The image data psplash_draw_image is given. */
  datatype Image = Image(width: int, height: int, bytesPerPixel: nat, rowstride: int, rle: Bytes) {
    predicate Valid() { bytesPerPixel > 0 }

    function Decoded(): Option<seq<Texel>>
      requires Valid()
    {
      Decode(rle, rowstride * height, bytesPerPixel)
    }

    function Line(): nat
      requires Valid()
    {
      LineLength(bytesPerPixel, rowstride)
    }
  }

  function ImageWant(img: Image, x: int, y: int, ts: seq<Texel>): (int, int) -> Colour
    requires img.Valid()
  {
    (u, v) => ImageColour(x, y, img.width, LineLength(img.bytesPerPixel, img.rowstride), ts, u, v)
  }

  /** dx and dy are the position after the pixels drawn so far. */
  predicate At(img: Image, done: seq<Texel>, dx: nat, dy: nat)
    requires img.Valid()
  {
    dx == |done| % img.Line() && dy == |done| / img.Line()
  }

  function ImageSoFar(sh: Shape, d: Bytes, img: Image, x: int, y: int, done: seq<Texel>): (e: Bytes)
    requires Backed(sh, d) && img.Valid()
    ensures |e| == |d|
  {
    Paint(sh, d, ImagePlots(x, y, img.width, img.Line(), done))
  }

  lemma ImageStart(sh: Shape, d: Bytes, img: Image, x: int, y: int, total: int)
    requires Backed(sh, d) && img.Valid() && img.Decoded().Some? && total == img.rowstride * img.height
    ensures ImageSoFar(sh, d, img, x, y, []) == d && At(img, [], 0, 0)
    ensures DecodeLeft(img, 0, total, [], img.Decoded().value)
  {
    assert img.rle[0..] == img.rle;
  }

  lemma ImagePlotsMore(img: Image, x: int, y: int, done: seq<Texel>, t: Texel, dx: nat, dy: nat)
    requires img.Valid() && At(img, done, dx, dy)
    ensures ImagePlots(x, y, img.width, img.Line(), done + [t])
            == ImagePlots(x, y, img.width, img.Line(), done)
               + if t.visible && dx < img.width then [Plot(x + dx, y + dy, t.colour)] else []
  {
    assert (done + [t])[..|done|] == done;
  }

  lemma ImageTexel(sh: Shape, d: Bytes, img: Image, x: int, y: int, done: seq<Texel>, t: Texel, dx: nat, dy: nat)
    requires Backed(sh, d) && img.Valid() && At(img, done, dx, dy)
    ensures ImageSoFar(sh, d, img, x, y, done + [t])
            == if t.visible && dx < img.width
               then Plotted(sh, ImageSoFar(sh, d, img, x, y, done), Plot(x + dx, y + dy, t.colour))
               else ImageSoFar(sh, d, img, x, y, done)
  {
    var ps := ImagePlots(x, y, img.width, img.Line(), done);
    ImagePlotsMore(img, x, y, done, t, dx, dy);
    if t.visible && dx < img.width {
      PaintMore(sh, d, ps, Plot(x + dx, y + dy, t.colour));
    } else {
      assert ps + [] == ps;
    }
  }

  lemma TexelHere(img: Image, p: nat)
    requires p + Needs(img.bytesPerPixel) <= |img.rle|
    ensures var rle := img.rle;
            TexelAt(rle[p..], img.bytesPerPixel)
            == Texel(img.bytesPerPixel < 4 || rle[p + 3] != 0, Rgb(rle[p], rle[p + 1], rle[p + 2]))
  {
  }

  lemma NextPosition(img: Image, done: seq<Texel>, t: Texel, dx: nat, dy: nat)
    requires img.Valid() && At(img, done, dx, dy)
    ensures if (dx + 1) * img.bytesPerPixel >= img.rowstride then At(img, done + [t], 0, dy + 1)
            else At(img, done + [t], dx + 1, dy)
  {
    var w := img.Line();
    LineEnds(img.bytesPerPixel, img.rowstride, dx);
    assert |done| == dy * w + dx;
    if dx + 1 == w {
      assert (dy + 1) * w + 0 == |done + [t]|;
      RowMajor(w, dy + 1, 0);
    } else {
      RowMajor(w, dy, dx + 1);
    }
  }

  /** The pixels still to come of a literal packet complete those drawn. */
  predicate LiteralLeft(img: Image, p: nat, total: int, n: nat, drawn: seq<Texel>, done: seq<Texel>, want: Step)
    requires img.Valid() && p <= |img.rle| && n > 0
  {
    match Literal(img.rle[p..], total - p, img.bytesPerPixel, n)
    case None => false
    case Some(step) => drawn + step.texels == done + want.texels && step.tail == want.tail && step.budget == want.budget
  }

  lemma LiteralLeftStep(img: Image, p: nat, total: int, n: nat, drawn: seq<Texel>, done: seq<Texel>, want: Step)
    requires img.Valid() && p <= |img.rle| && n > 0 && LiteralLeft(img, p, total, n, drawn, done, want)
    ensures p + Needs(img.bytesPerPixel) <= |img.rle|
    ensures var q, more := p + img.bytesPerPixel, drawn + [TexelAt(img.rle[p..], img.bytesPerPixel)];
            if n > 1 && q < total then LiteralLeft(img, q, total, n - 1, more, done, want)
            else more == done + want.texels && img.rle[q..] == want.tail && total - q == want.budget
  {
    var q := p + img.bytesPerPixel;
    assert img.rle[p..][img.bytesPerPixel..] == img.rle[q..];
    if n > 1 && q < total {
      var t := TexelAt(img.rle[p..], img.bytesPerPixel);
      var rest := Literal(img.rle[q..], total - q, img.bytesPerPixel, n - 1).value.texels;
      assert drawn + ([t] + rest) == drawn + [t] + rest;
    }
  }

  /** The pixels still to come of the stream complete those drawn. */
  predicate DecodeLeft(img: Image, p: nat, total: int, done: seq<Texel>, want: seq<Texel>)
    requires img.Valid() && p <= |img.rle|
  {
    match Decode(img.rle[p..], total - p, img.bytesPerPixel)
    case None => false
    case Some(rest) => done + rest == want
  }

  lemma DecodeLeftEnd(img: Image, p: nat, total: int, done: seq<Texel>, want: seq<Texel>)
    requires img.Valid() && p <= |img.rle| && DecodeLeft(img, p, total, done, want)
    ensures p < total ==> p < |img.rle|
    ensures p >= total || img.rle[p] % 128 == 0 ==> done == want
  {
    if p < total { assert img.rle[p..] != []; }
  }

  lemma DecodeLeftRun(img: Image, p: nat, total: int, done: seq<Texel>, want: seq<Texel>)
    requires img.Valid() && p < |img.rle| && p < total && DecodeLeft(img, p, total, done, want)
    requires img.rle[p] > 128
    ensures p + 1 + Needs(img.bytesPerPixel) <= |img.rle|
    ensures var run := Repeat(TexelAt(img.rle[p + 1..], img.bytesPerPixel), img.rle[p] - 128);
            DecodeLeft(img, p + 1 + img.bytesPerPixel, total, done + run, want)
  {
    var n := img.rle[p] - 128;
    assert img.rle[p..][0] == 128 + n && img.rle[p..][1..] == img.rle[p + 1..];
    assert DecodeRun(n, img.rle[p + 1..], total - p - 1, img.bytesPerPixel).Some?;
    assert img.rle[p + 1..][img.bytesPerPixel..] == img.rle[p + 1 + img.bytesPerPixel..];
    var run := Repeat(TexelAt(img.rle[p + 1..], img.bytesPerPixel), n);
    var rest := Decode(img.rle[p + 1 + img.bytesPerPixel..], total - p - 1 - img.bytesPerPixel, img.bytesPerPixel);
    assert done + (run + rest.value) == done + run + rest.value;
  }

  lemma DecodeLeftLiteral(img: Image, p: nat, total: int, done: seq<Texel>, want: seq<Texel>, q: nat)
    requires img.Valid() && p < |img.rle| && p < total && DecodeLeft(img, p, total, done, want)
    requires 0 < img.rle[p] < 128
    ensures var packet := Literal(img.rle[p + 1..], total - p - 1, img.bytesPerPixel, img.rle[p]);
            && packet.Some?
            && (q <= |img.rle| && img.rle[q..] == packet.value.tail && total - q == packet.value.budget ==>
                  DecodeLeft(img, q, total, done + packet.value.texels, want))
  {
    assert img.rle[p..][1..] == img.rle[p + 1..];
    var packet := Literal(img.rle[p + 1..], total - p - 1, img.bytesPerPixel, img.rle[p]);
    var rest := Decode(packet.value.tail, packet.value.budget, img.bytesPerPixel);
    assert done + (packet.value.texels + rest.value) == done + packet.value.texels + rest.value;
  }

  /** The data of a well-formed stream no longer than the image decodes to what its packets mean. */
  lemma EncodedImageIsDecoded(img: Image, pks: seq<Packet>)
    requires img.bytesPerPixel >= 3 && WellFormed(img.bytesPerPixel, pks)
    requires img.rle == Stream(img.bytesPerPixel, pks) && |img.rle| <= img.rowstride * img.height
    ensures img.Decoded() == Some(Meaning(img.bytesPerPixel, pks))
  {
    DecodeReadsStream(pks, img.rowstride * img.height, img.bytesPerPixel);
  }

  /** A drawn image shows its visible pixels inside image width and canvas, and nothing else. */
  lemma ImageIsExact(sh: Shape, d: Bytes, img: Image, x: int, y: int, ts: seq<Texel>)
    requires Backed(sh, d) && img.Valid()
    ensures Shows(sh, d, ImageSoFar(sh, d, img, x, y, ts), ImageWant(img, x, y, ts))
  {
    var ps := ImagePlots(x, y, img.width, img.Line(), ts);
    forall u, v | OnCanvas(sh, u, v) ensures LastPlot(ps, u, v) == ImageWant(img, x, y, ts)(u, v) {
      ImagePlotsPaintImage(x, y, img.width, img.Line(), ts, u, v);
    }
    PaintShows(sh, d, ps, ImageWant(img, x, y, ts));
  }

  // What is shown, byte by byte.

  /** A buffer that shows a rectangle holds its colour at the pixels of the rectangle, and what it held
      before at all others. */
  lemma RectByPixel(sh: Shape, before: Bytes, after: Bytes, x: int, y: int, width: int, height: int, c: Rgb,
    u: int, v: int)
    requires Backed(sh, before) && Shows(sh, before, after, RectWant(x, y, width, height, c)) && OnCanvas(sh, u, v)
    ensures var at, n := PixelOffset(sh, u, v), |Pack(sh, c)|;
            && 0 <= at && at + n <= |after| == |before|
            && after[at..at + n]
               == if x <= u < x + width && y <= v < y + height then Pack(sh, c) else before[at..at + n]
  {
    PackSize(sh, c);
    PixelInBuffer(sh, u, v);
    assert Get(sh, after, u, v) == if InRect(x, y, width, height, u, v) then Pack(sh, c) else Get(sh, before, u, v);
  }

  lemma LineLengthIs(bytesPerPixel: nat, rowstride: int, w: nat)
    requires bytesPerPixel > 0 && w > 0
    requires w * bytesPerPixel >= rowstride && (w == 1 || (w - 1) * bytesPerPixel < rowstride)
    ensures LineLength(bytesPerPixel, rowstride) == w
  {
    var l := LineLength(bytesPerPixel, rowstride);
    LineEnds(bytesPerPixel, rowstride, l - 1);
    if l > 1 { LineEnds(bytesPerPixel, rowstride, l - 2); }
    if w < l { MulMonotone(w, l - 1, bytesPerPixel); }
    if l < w { MulMonotone(l, w - 1, bytesPerPixel); }
  }

  /** A buffer that shows an image, whose lines take the fewest pixels with as many bytes as the row
      stride, holds pixel dy * w + dx at (x + dx, y + dy) if it is visible and within the image width,
      and what it held before everywhere else. */
  lemma ImageByPixel(sh: Shape, before: Bytes, after: Bytes, img: Image, x: int, y: int, ts: seq<Texel>,
    w: nat, u: int, v: int)
    requires Backed(sh, before) && img.bytesPerPixel > 0 && OnCanvas(sh, u, v)
    requires Shows(sh, before, after, ImageWant(img, x, y, ts))
    requires w > 0 && w * img.bytesPerPixel >= img.rowstride && (w == 1 || (w - 1) * img.bytesPerPixel < img.rowstride)
    ensures var at, n := PixelOffset(sh, u, v), PixelSize(sh);
            var dx, dy := u - x, v - y;
            && 0 <= at && at + n <= |after| == |before|
            && after[at..at + n]
               == if 0 <= dx < w && dx < img.width && 0 <= dy && 0 <= dy * w + dx < |ts| && ts[dy * w + dx].visible
                  then Pack(sh, ts[dy * w + dx].colour) else before[at..at + n]
  {
    LineLengthIs(img.bytesPerPixel, img.rowstride, w);
    ShownAt(sh, before, after, ImageWant(img, x, y, ts), u, v);
    ImageColourIs(x, y, img.width, w, ts, u, v);
  }

  /** What Shows says of one pixel. */
  lemma ShownAt(sh: Shape, before: Bytes, after: Bytes, want: (int, int) -> Colour, u: int, v: int)
    requires Backed(sh, before) && Shows(sh, before, after, want) && OnCanvas(sh, u, v)
    ensures var at, n := PixelOffset(sh, u, v), PixelSize(sh);
            && 0 <= at && at + n <= |after| == |before|
            && after[at..at + n] == match want(u, v)
                                    case Unpainted => before[at..at + n]
                                    case Painted(c) => Pack(sh, c)
  {
    PixelInBuffer(sh, u, v);
    assert Get(sh, after, u, v) == match want(u, v)
                                   case Unpainted => Get(sh, before, u, v)
                                   case Painted(c) => Pack(sh, c);
  }

  lemma ImageColourIs(x: int, y: int, imgWidth: int, w: nat, ts: seq<Texel>, u: int, v: int)
    ensures var dx, dy := u - x, v - y;
            ImageColour(x, y, imgWidth, w, ts, u, v)
            == if 0 <= dx < w && dx < imgWidth && 0 <= dy && 0 <= dy * w + dx < |ts| && ts[dy * w + dx].visible
               then Painted(ts[dy * w + dx].colour) else Unpainted
  {
    if 0 <= v - y { MulMonotone(0, v - y, w); }
  }

  // The canvas.

  /** Red, green and blue at the bit positions of the 24 and 16 bit layouts. */
  lemma WordOf888(hi: Byte, mid: Byte, lo: Byte)
    ensures Or(Or(ShiftLeft(hi, 16), ShiftLeft(mid, 8)), lo) == Value888(hi, mid, lo)
  {
    ByteFields(hi);
    ByteFields(mid);
    assert Field(hi, 8, 16) == ShiftLeft(hi, 16) && Field(mid, 8, 8) == ShiftLeft(mid, 8);
    Or888(hi, mid, lo);
  }

  lemma WordOf565(hi: Byte, mid: Byte, lo: Byte)
    ensures Or(Or(ShiftLeft(ShiftRight(hi, 3), 11), ShiftLeft(ShiftRight(mid, 2), 5)), ShiftRight(lo, 3))
            == Value565(hi, mid, lo)
  {
    ShortFields(hi);
    ShortFields(mid);
    ShortFields(lo);
    assert Field(lo, 5, 0) == ShiftRight(lo, 3);
    Or565(hi, mid, lo);
  }

  class Canvas {
    const shape: Shape
    var data: array<Byte>

    ghost predicate Valid()
      reads this, data
    {
      Backed(shape, data[..])
    }

    constructor (shape: Shape, data: array<Byte>)
      ensures this.shape == shape && this.data == data
    {
      this.shape := shape;
      this.data := data;
    }

    method Store(at: nat, bytes: Bytes)
      requires at + |bytes| <= data.Length
      modifies data
      ensures data[..] == old(data[..])[..at] + bytes + old(data[..])[at + |bytes|..]
    {
      forall i | 0 <= i < |bytes| { data[at + i] := bytes[i]; }
    }

    /** Where a logical pixel starts. */
    method OffsetOf(x: int, y: int) returns (off: int)
      ensures off == PixelOffset(shape, x, y)
    {
      match shape.angle
      case 270 => off := Offset(shape, shape.height - y - 1, x);
      case 180 => off := Offset(shape, shape.width - x - 1, shape.height - y - 1);
      case 90 => off := Offset(shape, y, shape.width - x - 1);
      case _ => off := Offset(shape, x, y);
    }

    /** The bytes to store, as the switches on mode and depth compute them. */
    method BytesOf(c: Rgb) returns (bytes: Bytes)
      requires FitsRaster(shape)
      ensures bytes == Pack(shape, c)
    {
      WordOf888(c.red, c.green, c.blue);
      WordOf888(c.blue, c.green, c.red);
      WordOf565(c.red, c.green, c.blue);
      WordOf565(c.blue, c.green, c.red);
      LeOf888(c.red, c.green, c.blue);
      LeOf888(c.blue, c.green, c.red);
      bytes := [];
      if shape.mode == RGB565 || shape.mode == RGB888 {
        match shape.bpp
        case 24 => bytes := [c.blue, c.green, c.red];
        case 32 => bytes := Le(Or(Or(ShiftLeft(c.red, 16), ShiftLeft(c.green, 8)), c.blue), 4);
        case 16 =>
          bytes := Le(Or(Or(ShiftLeft(ShiftRight(c.red, 3), 11), ShiftLeft(ShiftRight(c.green, 2), 5)),
                         ShiftRight(c.blue, 3)), 2);
        case _ =>
      } else if shape.mode == BGR565 || shape.mode == BGR888 {
        match shape.bpp
        case 24 => bytes := [c.red, c.green, c.blue];
        case 32 => bytes := Le(Or(Or(ShiftLeft(c.blue, 16), ShiftLeft(c.green, 8)), c.red), 4);
        case 16 =>
          bytes := Le(Or(Or(ShiftLeft(ShiftRight(c.blue, 3), 11), ShiftLeft(ShiftRight(c.green, 2), 5)),
                         ShiftRight(c.red, 3)), 2);
        case _ =>
      } else {
        match shape.bpp
        case 32 => bytes := Le(GenericValue(shape.fields, c), 4);
        case 16 => bytes := Le(GenericValue(shape.fields, c), 2);
        case _ =>
      }
    }

    /** psplash_plot_pixel */
    method PlotPixel(x: int, y: int, c: Rgb)
      requires Valid()
      modifies data
      ensures Valid() && data[..] == Plotted(shape, old(data[..]), Plot(x, y, c))
    {
      if x < 0 || x > shape.width - 1 || y < 0 || y > shape.height - 1 { return; }
      PixelInBuffer(shape, x, y);
      PackSize(shape, c);
      var off := OffsetOf(x, y);
      var bytes := BytesOf(c);
      Store(off, bytes);
    }

    /** The loops of psplash_draw_rect. */
    method DrawLines(x: int, y: int, width: int, height: int, c: Rgb)
      requires Valid()
      modifies data
      ensures Valid() && data[..] == RectSoFar(shape, old(data[..]), x, y, width, c, Positive(height), 0)
    {
      ghost var before := data[..];
      RectNothing(shape, before, x, y, width, c);
      var dy := 0;
      while dy < height
        invariant 0 <= dy <= Positive(height)
        invariant Valid() && data[..] == RectSoFar(shape, before, x, y, width, c, dy, 0)
      {
        DrawLine(x, y, width, c, dy, before);
        RectLine(shape, before, x, y, width, c, dy);
        dy := dy + 1;
      }
    }

    method DrawLine(x: int, y: int, width: int, c: Rgb, dy: nat, ghost before: Bytes)
      requires Valid() && Backed(shape, before)
      requires data[..] == RectSoFar(shape, before, x, y, width, c, dy, 0)
      modifies data
      ensures Valid() && data[..] == RectSoFar(shape, before, x, y, width, c, dy, Positive(width))
    {
      var dx := 0;
      while dx < width
        invariant 0 <= dx <= Positive(width)
        invariant Valid() && data[..] == RectSoFar(shape, before, x, y, width, c, dy, dx)
      {
        RectPixel(shape, before, x, y, width, c, dy, dx);
        PlotPixel(x + dx, y + dy, c);
        dx := dx + 1;
      }
    }

    /** psplash_draw_rect */
    method DrawRect(x: int, y: int, width: int, height: int, c: Rgb)
      requires Valid()
      modifies data
      ensures Valid()
      ensures Shows(shape, old(data[..]), data[..], RectWant(x, y, width, height, c))
    {
      RectIsExact(shape, data[..], x, y, width, height, c);
      DrawLines(x, y, width, height, c);
    }

    /** To the next column, or to the next line once the bytes of this one are used up. */
    method Move(img: Image, dx0: nat, dy0: nat, ghost done: seq<Texel>, ghost t: Texel) returns (dx: nat, dy: nat)
      requires img.Valid() && At(img, done, dx0, dy0)
      ensures At(img, done + [t], dx, dy)
    {
      NextPosition(img, done, t, dx0, dy0);
      dx, dy := dx0 + 1, dy0;
      if dx * img.bytesPerPixel >= img.rowstride { dx, dy := 0, dy + 1; }
    }

    /** One pixel of an image: drawn unless transparent or padding. */
    method PlotTexel(img: Image, x: int, y: int, t: Texel, dx: nat, dy: nat,
                     ghost before: Bytes, ghost done: seq<Texel>)
      requires Valid() && img.Valid()
      requires At(img, done, dx, dy) && Backed(shape, before) && data[..] == ImageSoFar(shape, before, img, x, y, done)
      modifies data
      ensures Valid() && data[..] == ImageSoFar(shape, before, img, x, y, done + [t])
    {
      ImageTexel(shape, before, img, x, y, done, t, dx, dy);
      if t.visible && dx < img.width { PlotPixel(x + dx, y + dy, t.colour); }
    }

    /** The body of the inner loops: one pixel, and on to the next position. */
    method DrawTexel(img: Image, x: int, y: int, p: nat, dx0: nat, dy0: nat,
                     ghost before: Bytes, ghost done: seq<Texel>)
      returns (dx: nat, dy: nat)
      requires Valid() && img.Valid() && p + Needs(img.bytesPerPixel) <= |img.rle|
      requires At(img, done, dx0, dy0) && Backed(shape, before)
      requires data[..] == ImageSoFar(shape, before, img, x, y, done)
      modifies data
      ensures Valid()
      ensures var more := done + [TexelAt(img.rle[p..], img.bytesPerPixel)];
              At(img, more, dx, dy) && data[..] == ImageSoFar(shape, before, img, x, y, more)
    {
      var rle := img.rle;
      var t := Texel(img.bytesPerPixel < 4 || rle[p + 3] != 0, Rgb(rle[p], rle[p + 1], rle[p + 2]));
      TexelHere(img, p);
      PlotTexel(img, x, y, t, dx0, dy0, before, done);
      dx, dy := Move(img, dx0, dy0, done, t);
    }

    /** The loop over a run of n times the pixel at p. */
    method DrawRun(img: Image, x: int, y: int, p: nat, n: nat, dx0: nat, dy0: nat,
                   ghost before: Bytes, ghost done: seq<Texel>)
      returns (dx: nat, dy: nat)
      requires Valid() && img.Valid() && p + Needs(img.bytesPerPixel) <= |img.rle|
      requires At(img, done, dx0, dy0) && Backed(shape, before)
      requires data[..] == ImageSoFar(shape, before, img, x, y, done)
      modifies data
      ensures Valid()
      ensures var more := done + Repeat(TexelAt(img.rle[p..], img.bytesPerPixel), n);
              At(img, more, dx, dy) && data[..] == ImageSoFar(shape, before, img, x, y, more)
    {
      ghost var t, drawn := TexelAt(img.rle[p..], img.bytesPerPixel), done;
      dx, dy := dx0, dy0;
      var len: nat := n;
      while len > 0
        invariant len <= n && Valid() && At(img, drawn, dx, dy)
        invariant drawn == done + Repeat(t, n - len)
        invariant data[..] == ImageSoFar(shape, before, img, x, y, drawn)
      {
        assert done + Repeat(t, n - len + 1) == done + Repeat(t, n - len) + [t];
        dx, dy := DrawTexel(img, x, y, p, dx, dy, before, drawn);
        drawn := drawn + [t];
        len := len - 1;
      }
    }

    /** The loop over a literal packet of n pixels. */
    method DrawLiteral(img: Image, x: int, y: int, p0: nat, total: int, n: nat, dx0: nat, dy0: nat,
                       ghost before: Bytes, ghost done: seq<Texel>)
      returns (p: nat, dx: nat, dy: nat)
      requires Valid() && img.Valid() && n > 0 && p0 <= |img.rle|
      requires Literal(img.rle[p0..], total - p0, img.bytesPerPixel, n).Some?
      requires At(img, done, dx0, dy0) && Backed(shape, before)
      requires data[..] == ImageSoFar(shape, before, img, x, y, done)
      modifies data
      ensures Valid() && p0 < p <= |img.rle|
      ensures var step := Literal(img.rle[p0..], total - p0, img.bytesPerPixel, n).value;
              && img.rle[p..] == step.tail && total - p == step.budget
              && At(img, done + step.texels, dx, dy)
              && data[..] == ImageSoFar(shape, before, img, x, y, done + step.texels)
    {
      ghost var want := Literal(img.rle[p0..], total - p0, img.bytesPerPixel, n).value;
      ghost var drawn := done;
      p, dx, dy := p0, dx0, dy0;
      var len, more := n, true;
      while more
        invariant Valid() && p0 <= p <= |img.rle| && (!more ==> p0 < p) && At(img, drawn, dx, dy)
        invariant data[..] == ImageSoFar(shape, before, img, x, y, drawn)
        invariant more ==> len > 0 && p <= |img.rle| && LiteralLeft(img, p, total, len, drawn, done, want)
        invariant !more ==> drawn == done + want.texels && img.rle[p..] == want.tail && total - p == want.budget
        decreases more, len
      {
        LiteralLeftStep(img, p, total, len, drawn, done, want);
        dx, dy := DrawTexel(img, x, y, p, dx, dy, before, drawn);
        drawn := drawn + [TexelAt(img.rle[p..], img.bytesPerPixel)];
        p, len := p + img.bytesPerPixel, len - 1;
        more := len > 0 && p < total;
      }
    }

    method DrawRunPacket(img: Image, x: int, y: int, p0: nat, total: int, dx0: nat, dy0: nat,
                         ghost before: Bytes, ghost done: seq<Texel>, ghost want: seq<Texel>)
      returns (p: nat, dx: nat, dy: nat, ghost drawn: seq<Texel>)
      requires Valid() && img.Valid() && p0 < |img.rle| && p0 < total && img.rle[p0] > 128
      requires DecodeLeft(img, p0, total, done, want)
      requires At(img, done, dx0, dy0) && Backed(shape, before)
      requires data[..] == ImageSoFar(shape, before, img, x, y, done)
      modifies data
      ensures Valid() && p0 < p <= |img.rle| && DecodeLeft(img, p, total, drawn, want)
      ensures At(img, drawn, dx, dy) && data[..] == ImageSoFar(shape, before, img, x, y, drawn)
    {
      DecodeLeftRun(img, p0, total, done, want);
      dx, dy := DrawRun(img, x, y, p0 + 1, img.rle[p0] - 128, dx0, dy0, before, done);
      drawn := done + Repeat(TexelAt(img.rle[p0 + 1..], img.bytesPerPixel), img.rle[p0] - 128);
      p := p0 + 1 + img.bytesPerPixel;
    }

    method DrawLiteralPacket(img: Image, x: int, y: int, p0: nat, total: int, dx0: nat, dy0: nat,
                             ghost before: Bytes, ghost done: seq<Texel>, ghost want: seq<Texel>)
      returns (p: nat, dx: nat, dy: nat, ghost drawn: seq<Texel>)
      requires Valid() && img.Valid() && p0 < |img.rle| && p0 < total && 0 < img.rle[p0] < 128
      requires DecodeLeft(img, p0, total, done, want)
      requires At(img, done, dx0, dy0) && Backed(shape, before)
      requires data[..] == ImageSoFar(shape, before, img, x, y, done)
      modifies data
      ensures Valid() && p0 < p <= |img.rle| && DecodeLeft(img, p, total, drawn, want)
      ensures At(img, drawn, dx, dy) && data[..] == ImageSoFar(shape, before, img, x, y, drawn)
    {
      DecodeLeftLiteral(img, p0, total, done, want, p0);
      p, dx, dy := DrawLiteral(img, x, y, p0 + 1, total, img.rle[p0], dx0, dy0, before, done);
      DecodeLeftLiteral(img, p0, total, done, want, p);
      drawn := done + Literal(img.rle[p0 + 1..], total - p0 - 1, img.bytesPerPixel, img.rle[p0]).value.texels;
    }

    /** One packet, or the end of the stream. */
    method DrawPacket(img: Image, x: int, y: int, p0: nat, total: int, dx0: nat, dy0: nat,
                      ghost before: Bytes, ghost done: seq<Texel>, ghost want: seq<Texel>)
      returns (more: bool, p: nat, dx: nat, dy: nat, ghost drawn: seq<Texel>)
      requires Valid() && img.Valid() && p0 <= |img.rle| && p0 < total
      requires DecodeLeft(img, p0, total, done, want)
      requires At(img, done, dx0, dy0) && Backed(shape, before)
      requires data[..] == ImageSoFar(shape, before, img, x, y, done)
      modifies data
      ensures Valid() && p <= |img.rle|
      ensures more ==> p > p0 && DecodeLeft(img, p, total, drawn, want)
      ensures !more ==> drawn == want
      ensures At(img, drawn, dx, dy) && data[..] == ImageSoFar(shape, before, img, x, y, drawn)
    {
      DecodeLeftEnd(img, p0, total, done, want);
      var len: nat := img.rle[p0];
      if len % 128 == 0 { return false, p0, dx0, dy0, done; }
      more := true;
      if len >= 128 {
        p, dx, dy, drawn := DrawRunPacket(img, x, y, p0, total, dx0, dy0, before, done, want);
      } else {
        p, dx, dy, drawn := DrawLiteralPacket(img, x, y, p0, total, dx0, dy0, before, done, want);
      }
    }

    /** psplash_draw_image */
    method DrawImage(img: Image, x: int, y: int)
      requires Valid() && img.Valid() && img.Decoded().Some?
      modifies data
      ensures Valid()
      ensures Shows(shape, old(data[..]), data[..], ImageWant(img, x, y, img.Decoded().value))
    {
      ghost var before, done, want := data[..], [], img.Decoded().value;
      var total := img.rowstride * img.height;
      var more, p, dx, dy := true, 0, 0, 0;
      ImageStart(shape, before, img, x, y, total);
      while more && p < total
        invariant Valid() && 0 <= p <= |img.rle| && dx >= 0 && dy >= 0 && At(img, done, dx, dy)
        invariant data[..] == ImageSoFar(shape, before, img, x, y, done)
        invariant if more then DecodeLeft(img, p, total, done, want) else done == want
        decreases more, |img.rle| - p
      {
        more, p, dx, dy, done := DrawPacket(img, x, y, p, total, dx, dy, before, done, want);
      }
      if more { DecodeLeftEnd(img, p, total, done, want); }
      ImageIsExact(shape, before, img, x, y, done);
    }
  }
}
