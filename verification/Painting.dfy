/** What a list of plotted pixels leaves in the frame buffer. */
module PsplashPainting {
  import opened Words
  import opened PsplashCanvas

  datatype Plot = Plot(x: int, y: int, colour: Rgb)

  /** A buffer large enough for the canvas. */
  predicate Backed(sh: Shape, d: Bytes) {
    FitsRaster(sh) && |d| >= sh.stride * sh.realHeight
  }

  /** The bytes of one logical pixel. */
  function Get(sh: Shape, d: Bytes, x: int, y: int): Bytes
    requires Backed(sh, d) && OnCanvas(sh, x, y)
  {
    PixelInBuffer(sh, x, y);
    var at := PixelOffset(sh, x, y);
    d[at..at + PixelSize(sh)]
  }

  /** Bytes that belong to no pixel: line padding and whatever follows the last line. */
  ghost predicate Padding(sh: Shape, k: int) {
    forall x, y :: OnCanvas(sh, x, y) ==> !(PixelOffset(sh, x, y) <= k < PixelOffset(sh, x, y) + PixelSize(sh))
  }

  /** psplash_plot_pixel: clipped to the canvas. */
  function Plotted(sh: Shape, d: Bytes, p: Plot): (e: Bytes)
    requires Backed(sh, d)
    ensures |e| == |d|
  {
    if !OnCanvas(sh, p.x, p.y) then d
    else
      PixelInBuffer(sh, p.x, p.y);
      PackSize(sh, p.colour);
      var at := PixelOffset(sh, p.x, p.y);
      d[..at] + Pack(sh, p.colour) + d[at + PixelSize(sh)..]
  }

  /** Plots in order. */
  function Paint(sh: Shape, d: Bytes, ps: seq<Plot>): (e: Bytes)
    requires Backed(sh, d)
    ensures |e| == |d|
  {
    if ps == [] then d
    else Plotted(sh, Paint(sh, d, ps[..|ps| - 1]), ps[|ps| - 1])
  }

  /** One plot changes its own pixel and nothing else. */
  lemma PlottedGet(sh: Shape, d: Bytes, p: Plot, x: int, y: int)
    requires Backed(sh, d) && OnCanvas(sh, x, y)
    ensures Get(sh, Plotted(sh, d, p), x, y)
            == if (p.x, p.y) == (x, y) then Pack(sh, p.colour) else Get(sh, d, x, y)
  {
    if OnCanvas(sh, p.x, p.y) {
      PackSize(sh, p.colour);
      PixelInBuffer(sh, p.x, p.y);
      PixelInBuffer(sh, x, y);
      if (p.x, p.y) != (x, y) {
        PixelsApart(sh, p.x, p.y, x, y);
      }
    }
  }

  lemma PlottedPadding(sh: Shape, d: Bytes, p: Plot, k: nat)
    requires Backed(sh, d) && k < |d| && Padding(sh, k)
    ensures Plotted(sh, d, p)[k] == d[k]
  {
    if OnCanvas(sh, p.x, p.y) {
      PackSize(sh, p.colour);
      PixelInBuffer(sh, p.x, p.y);
    }
  }

  datatype Colour = Unpainted | Painted(colour: Rgb)

  /** The colour the last plot of a pixel gives it. */
  function LastPlot(ps: seq<Plot>, x: int, y: int): Colour {
    if ps == [] then Unpainted
    else
      var p := ps[|ps| - 1];
      if (p.x, p.y) == (x, y) then Painted(p.colour) else LastPlot(ps[..|ps| - 1], x, y)
  }

  /** After any list of plots every canvas pixel shows its last plot, or what it showed before, and
      no other byte has changed. */
  lemma {:induction false} PaintShowsLastPlot(sh: Shape, d: Bytes, ps: seq<Plot>, x: int, y: int)
    requires Backed(sh, d) && OnCanvas(sh, x, y)
    ensures Get(sh, Paint(sh, d, ps), x, y)
            == match LastPlot(ps, x, y)
               case Unpainted => Get(sh, d, x, y)
               case Painted(c) => Pack(sh, c)
    decreases |ps|
  {
    if ps != [] {
      var init := ps[..|ps| - 1];
      PaintShowsLastPlot(sh, d, init, x, y);
      PlottedGet(sh, Paint(sh, d, init), ps[|ps| - 1], x, y);
    }
  }

  lemma {:induction false} PaintKeepsPadding(sh: Shape, d: Bytes, ps: seq<Plot>, k: nat)
    requires Backed(sh, d) && k < |d| && Padding(sh, k)
    ensures Paint(sh, d, ps)[k] == d[k]
    decreases |ps|
  {
    if ps != [] {
      var init := ps[..|ps| - 1];
      PaintKeepsPadding(sh, d, init, k);
      PlottedPadding(sh, Paint(sh, d, init), ps[|ps| - 1], k);
    }
  }

  /** A picture is fixed by its pixels and its padding. */
  ghost predicate Shows(sh: Shape, before: Bytes, after: Bytes, want: (int, int) -> Colour)
    requires Backed(sh, before)
  {
    && |after| == |before|
    && (forall x, y :: OnCanvas(sh, x, y) ==>
          Get(sh, after, x, y)
          == match want(x, y)
             case Unpainted => Get(sh, before, x, y)
             case Painted(c) => Pack(sh, c))
    && (forall k :: 0 <= k < |before| && Padding(sh, k) ==> after[k] == before[k])
  }

  lemma PaintShows(sh: Shape, d: Bytes, ps: seq<Plot>, want: (int, int) -> Colour)
    requires Backed(sh, d)
    requires forall x, y :: OnCanvas(sh, x, y) ==> LastPlot(ps, x, y) == want(x, y)
    ensures Shows(sh, d, Paint(sh, d, ps), want)
  {
    forall x, y | OnCanvas(sh, x, y)
      ensures Get(sh, Paint(sh, d, ps), x, y)
              == match want(x, y)
                 case Unpainted => Get(sh, d, x, y)
                 case Painted(c) => Pack(sh, c)
    {
      PaintShowsLastPlot(sh, d, ps, x, y);
    }
    forall k | 0 <= k < |d| && Padding(sh, k) ensures Paint(sh, d, ps)[k] == d[k] {
      PaintKeepsPadding(sh, d, ps, k);
    }
  }

  /** Shows leaves nothing open: two results that show the same wish are the same bytes. */
  lemma ShownPictureIsUnique(sh: Shape, before: Bytes, a: Bytes, b: Bytes, want: (int, int) -> Colour)
    requires Backed(sh, before)
    requires Shows(sh, before, a, want) && Shows(sh, before, b, want)
    ensures a == b
  {
    forall k | 0 <= k < |a| ensures a[k] == b[k] {
      if !Padding(sh, k) {
        var x, y :| OnCanvas(sh, x, y) && PixelOffset(sh, x, y) <= k < PixelOffset(sh, x, y) + PixelSize(sh);
        var at := PixelOffset(sh, x, y);
        PixelInBuffer(sh, x, y);
        assert Get(sh, a, x, y) == Get(sh, b, x, y);
        assert Get(sh, a, x, y)[k - at] == a[k];
        assert Get(sh, b, x, y)[k - at] == b[k];
      }
    }
  }
}
