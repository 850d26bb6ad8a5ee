/** PSplashCanvas: placing a logical pixel on the rotated raster, packing its colour, and the
    picture that a list of plotted pixels leaves in the frame buffer.

    Little-endian host; C int arithmetic without overflow. */
module PsplashCanvas {
  import opened Words

  datatype RgbMode = RGB565 | BGR565 | RGB888 | BGR888 | GENERIC

  /** The colour bit fields the frame buffer device reports. */
  datatype Fields = Fields(redOffset: nat, redLength: nat, greenOffset: nat, greenLength: nat,
                           blueOffset: nat, blueLength: nat)

  /** A canvas and the raster below it (PSplashFB's real_width and real_height). */
  datatype Shape = Shape(width: int, height: int, bpp: nat, stride: int, angle: int, mode: RgbMode, fields: Fields,
                         realWidth: nat, realHeight: nat)

  // Placement.

  predicate Sideways(angle: int) { angle == 90 || angle == 270 }

  /** bpp >> 3 */
  function Unit(sh: Shape): nat { sh.bpp / 8 }

  function Offset(sh: Shape, px: int, py: int): int { py * sh.stride + px * Unit(sh) }

  predicate OnCanvas(sh: Shape, x: int, y: int) { 0 <= x < sh.width && 0 <= y < sh.height }

  /** The raster position of a logical pixel. */
  function Place(sh: Shape, x: int, y: int): (int, int) {
    if sh.angle == 270 then (sh.height - y - 1, x)
    else if sh.angle == 180 then (sh.width - x - 1, sh.height - y - 1)
    else if sh.angle == 90 then (y, sh.width - x - 1)
    else (x, y)
  }

  /** The logical pixel at a raster position. */
  function Locate(sh: Shape, px: int, py: int): (int, int) {
    if sh.angle == 270 then (py, sh.height - px - 1)
    else if sh.angle == 180 then (sh.width - px - 1, sh.height - py - 1)
    else if sh.angle == 90 then (sh.width - py - 1, px)
    else (px, py)
  }

  function PixelOffset(sh: Shape, x: int, y: int): int {
    var (px, py) := Place(sh, x, y);
    Offset(sh, px, py)
  }

  /** A canvas whose sides, exchanged when turned sideways, do not exceed those of its raster, whose
      lines are long enough. */
  predicate FitsRaster(sh: Shape) {
    && (if Sideways(sh.angle) then sh.width <= sh.realHeight && sh.height <= sh.realWidth
        else sh.width <= sh.realWidth && sh.height <= sh.realHeight)
    && sh.stride >= sh.realWidth * Unit(sh)
    && sh.fields.redLength <= 8 && sh.fields.greenLength <= 8 && sh.fields.blueLength <= 8
  }

  /** The canvas psplash_fb_new sets up over its raster: sides swapped when turned sideways. */
  predicate SetUp(sh: Shape) {
    && (if Sideways(sh.angle) then sh.width == sh.realHeight && sh.height == sh.realWidth
        else sh.width == sh.realWidth && sh.height == sh.realHeight)
    && FitsRaster(sh)
  }

  /** Rotation is a bijection between the logical canvas and the raster. */
  lemma RotationIsBijective(sh: Shape, x: int, y: int)
    requires SetUp(sh)
    ensures var (px, py) := Place(sh, x, y);
            && (OnCanvas(sh, x, y) <==> 0 <= px < sh.realWidth && 0 <= py < sh.realHeight)
            && Locate(sh, px, py) == (x, y)
    ensures var (u, v) := Locate(sh, x, y);
            && (OnCanvas(sh, u, v) <==> 0 <= x < sh.realWidth && 0 <= y < sh.realHeight)
            && Place(sh, u, v) == (x, y)
  {
  }

  /** A canvas of whatever size stays on its raster exactly when its turned sides fit. */
  lemma UnswappedFitsIff(sh: Shape)
    requires sh.width > 0 && sh.height > 0
    ensures (forall x, y :: OnCanvas(sh, x, y) ==>
               var (px, py) := Place(sh, x, y); 0 <= px < sh.realWidth && 0 <= py < sh.realHeight)
            <==> if Sideways(sh.angle) then sh.height <= sh.realWidth && sh.width <= sh.realHeight
                 else sh.width <= sh.realWidth && sh.height <= sh.realHeight
  {
    assert OnCanvas(sh, 0, 0) && OnCanvas(sh, sh.width - 1, sh.height - 1);
  }

  lemma PixelInBuffer(sh: Shape, x: int, y: int)
    requires FitsRaster(sh) && OnCanvas(sh, x, y)
    ensures 0 <= PixelOffset(sh, x, y)
    ensures PixelOffset(sh, x, y) + Unit(sh) <= sh.stride * sh.realHeight
  {
    var (px, py) := Place(sh, x, y);
    RasterInBuffer(Unit(sh), sh.stride, sh.realWidth, sh.realHeight, px, py);
  }

  lemma RasterInBuffer(unit: nat, stride: int, w: nat, h: nat, px: int, py: int)
    requires 0 <= px < w && 0 <= py < h && stride >= w * unit
    ensures 0 <= py * stride + px * unit && py * stride + px * unit + unit <= stride * h
  {
    MulMonotone(px + 1, w, unit);
    MulMonotone(0, px, unit);
    MulMonotone(0, w, unit);
    MulMonotone(py + 1, h, stride);
    MulMonotone(0, py, stride);
  }

  lemma RasterApart(unit: nat, stride: int, w: nat, px: int, py: int, qx: int, qy: int)
    requires 0 <= px < w && 0 <= qx < w && stride >= w * unit && (py < qy || (py == qy && px < qx))
    ensures py * stride + px * unit + unit <= qy * stride + qx * unit
  {
    if py == qy {
      MulMonotone(px + 1, qx, unit);
    } else {
      MulMonotone(px + 1, w, unit);
      MulMonotone(0, qx, unit);
      MulMonotone(0, w, unit);
      MulMonotone(py + 1, qy, stride);
    }
  }

  /** Distinct logical pixels own disjoint bytes. */
  lemma PixelsApart(sh: Shape, x: int, y: int, u: int, v: int)
    requires FitsRaster(sh) && OnCanvas(sh, x, y) && OnCanvas(sh, u, v) && (x, y) != (u, v)
    ensures || PixelOffset(sh, x, y) + Unit(sh) <= PixelOffset(sh, u, v)
            || PixelOffset(sh, u, v) + Unit(sh) <= PixelOffset(sh, x, y)
  {
    var (px, py) := Place(sh, x, y);
    var (qx, qy) := Place(sh, u, v);
    if py < qy || (py == qy && px < qx) {
      RasterApart(Unit(sh), sh.stride, sh.realWidth, px, py, qx, qy);
    } else {
      RasterApart(Unit(sh), sh.stride, sh.realWidth, qx, qy, px, py);
    }
  }

  /** Where the picture lies: in which corner of the raster it starts, and how far apart the bytes of
      neighbouring pixels are, to the right and down. */
  lemma Orientation(sh: Shape, x: int, y: int)
    requires SetUp(sh)
    ensures var right := PixelOffset(sh, x + 1, y) - PixelOffset(sh, x, y);
            var down := PixelOffset(sh, x, y + 1) - PixelOffset(sh, x, y);
            if sh.angle == 270 then
              PixelOffset(sh, 0, 0) == (sh.realWidth - 1) * (sh.bpp / 8) && right == sh.stride && down == -(sh.bpp / 8)
            else if sh.angle == 180 then
              && PixelOffset(sh, 0, 0) == (sh.realHeight - 1) * sh.stride + (sh.realWidth - 1) * (sh.bpp / 8)
              && right == -(sh.bpp / 8) && down == -sh.stride
            else if sh.angle == 90 then
              PixelOffset(sh, 0, 0) == (sh.realHeight - 1) * sh.stride && right == -sh.stride && down == sh.bpp / 8
            else
              PixelOffset(sh, 0, 0) == 0 && right == sh.bpp / 8 && down == sh.stride
  {
    var (px, py) := Place(sh, x, y);
    OneFurther(px, sh.bpp / 8);
    OneFurther(py, sh.stride);
  }

  lemma OneFurther(p: int, c: int)
    ensures (p + 1) * c == p * c + c && (p - 1) * c == p * c - c
  {
  }

  // Colour packing.

  datatype Rgb = Rgb(red: Byte, green: Byte, blue: Byte)

  function Le(v: nat, n: nat): (b: Bytes)
    ensures |b| == n
  {
    if n == 0 then [] else [v % 0x100] + Le(v / 0x100, n - 1)
  }

  function ShiftRight(v: nat, n: nat): nat { if n == 0 then v else ShiftRight(v / 2, n - 1) }

  function ShiftLeft(v: nat, n: nat): nat { if n == 0 then v else 2 * ShiftLeft(v, n - 1) }

  /** One component cut to its length and moved to its offset. */
  function Field(c: Byte, length: nat, offset: nat): nat
    requires length <= 8
  {
    ShiftLeft(ShiftRight(c, 8 - length), offset)
  }

  function GenericValue(f: Fields, c: Rgb): nat
    requires f.redLength <= 8 && f.greenLength <= 8 && f.blueLength <= 8
  {
    Or(Or(Field(c.red, f.redLength, f.redOffset), Field(c.green, f.greenLength, f.greenOffset)),
       Field(c.blue, f.blueLength, f.blueOffset))
  }

  function Value565(hi: Byte, mid: Byte, lo: Byte): nat { hi / 8 * 2048 + mid / 4 * 32 + lo / 8 }

  /** The bytes a pixel of that colour is stored as; none for a depth that is not supported. */
  function Pack(sh: Shape, c: Rgb): Bytes
    requires sh.fields.redLength <= 8 && sh.fields.greenLength <= 8 && sh.fields.blueLength <= 8
  {
    if sh.mode == RGB565 || sh.mode == RGB888 then
      if sh.bpp == 24 then [c.blue, c.green, c.red]
      else if sh.bpp == 32 then [c.blue, c.green, c.red, 0]
      else if sh.bpp == 16 then Le(Value565(c.red, c.green, c.blue), 2)
      else []
    else if sh.mode == BGR565 || sh.mode == BGR888 then
      if sh.bpp == 24 then [c.red, c.green, c.blue]
      else if sh.bpp == 32 then [c.red, c.green, c.blue, 0]
      else if sh.bpp == 16 then Le(Value565(c.blue, c.green, c.red), 2)
      else []
    else
      if sh.bpp == 32 then Le(GenericValue(sh.fields, c), 4)
      else if sh.bpp == 16 then Le(GenericValue(sh.fields, c), 2)
      else []
  }

  /** How many bytes Pack yields. */
  function PixelSize(sh: Shape): nat {
    if sh.bpp == 32 then 4 else if sh.bpp == 16 then 2 else if sh.bpp == 24 && sh.mode != GENERIC then 3 else 0
  }

  lemma PackSize(sh: Shape, c: Rgb)
    requires sh.fields.redLength <= 8 && sh.fields.greenLength <= 8 && sh.fields.blueLength <= 8
    ensures |Pack(sh, c)| == PixelSize(sh) <= Unit(sh)
  {
  }

  /** The mode psplash_fb_new derives from the reported bit fields. */
  function DetectMode(f: Fields): RgbMode {
    if f == Fields(11, 5, 5, 6, 0, 5) then RGB565
    else if f == Fields(0, 5, 5, 6, 11, 5) then BGR565
    else if f == Fields(16, 8, 8, 8, 0, 8) then RGB888
    else if f == Fields(0, 8, 8, 8, 16, 8) then BGR888
    else GENERIC
  }

  lemma {:induction false} OrIsSum(hi: nat, lo: nat, n: nat)
    requires lo < Pow2(n)
    ensures Or(hi * Pow2(n), lo) == hi * Pow2(n) + lo && Or(lo, hi * Pow2(n)) == hi * Pow2(n) + lo
  {
    if n > 0 && lo > 0 && hi > 0 {
      var a := hi * Pow2(n - 1);
      assert hi * Pow2(n) == 2 * a;
      OrIsSum(hi, lo / 2, n - 1);
    }
  }

  lemma {:induction false} ShiftLeftIsProduct(v: nat, n: nat)
    ensures ShiftLeft(v, n) == v * Pow2(n)
  {
    if n > 0 { ShiftLeftIsProduct(v, n - 1); }
  }

  /** The fields that occur in the known layouts. */
  lemma ShortFields(c: Byte)
    ensures Field(c, 5, 0) == c / 8 && Field(c, 5, 11) == c / 8 * 2048 && Field(c, 6, 5) == c / 4 * 32
  {
    TopBits(c);
    SmallPowers();
    ShiftLeftIsProduct(c / 8, 11);
    ShiftLeftIsProduct(c / 4, 5);
  }

  lemma TopBits(c: nat)
    ensures ShiftRight(c, 3) == c / 8 && ShiftRight(c, 2) == c / 4
  {
    assert ShiftRight(c, 3) == ShiftRight(c / 2, 2) == ShiftRight(c / 2 / 2, 1) == c / 2 / 2 / 2;
    assert ShiftRight(c, 2) == ShiftRight(c / 2, 1) == c / 2 / 2;
  }

  lemma ByteFields(c: Byte)
    ensures Field(c, 8, 0) == c && Field(c, 8, 8) == c * 256 && Field(c, 8, 16) == c * 65536
  {
    SmallPowers();
    ShiftLeftIsProduct(c, 8);
    ShiftLeftIsProduct(c, 16);
  }

  lemma Or565(hi: Byte, mid: Byte, lo: Byte)
    ensures Or(Or(hi / 8 * 2048, mid / 4 * 32), lo / 8) == Value565(hi, mid, lo)
    ensures Or(Or(lo / 8, mid / 4 * 32), hi / 8 * 2048) == Value565(hi, mid, lo)
  {
    OrOfFields(hi / 8, mid / 4, lo / 8);
  }

  lemma OrOfFields(h: nat, m: nat, l: nat)
    requires m < 64 && l < 32
    ensures Or(Or(h * 2048, m * 32), l) == h * 2048 + m * 32 + l
    ensures Or(Or(l, m * 32), h * 2048) == h * 2048 + m * 32 + l
  {
    OrHighFirst(h, m, l);
    OrLowFirst(h, m, l);
  }

  lemma OrHighFirst(h: nat, m: nat, l: nat)
    requires m < 64 && l < 32
    ensures Or(Or(h * 2048, m * 32), l) == h * 2048 + m * 32 + l
  {
    SmallPowers();
    OrSum(h, m * 32, 2048, 11);
    OrSum(h * 64 + m, l, 32, 5);
  }

  lemma OrLowFirst(h: nat, m: nat, l: nat)
    requires m < 64 && l < 32
    ensures Or(Or(l, m * 32), h * 2048) == h * 2048 + m * 32 + l
  {
    SmallPowers();
    OrSum(m, l, 32, 5);
    OrSum(h, m * 32 + l, 2048, 11);
  }

  lemma OrSum(h: nat, l: nat, p: nat, k: nat)
    requires p == Pow2(k) && l < p
    ensures Or(h * p, l) == h * p + l == Or(l, h * p)
  {
    OrIsSum(h, l, k);
  }

  function Value888(hi: Byte, mid: Byte, lo: Byte): nat { hi * 65536 + mid * 256 + lo }

  lemma Or888(hi: Byte, mid: Byte, lo: Byte)
    ensures Or(Or(hi * 65536, mid * 256), lo) == Value888(hi, mid, lo)
    ensures Or(Or(lo, mid * 256), hi * 65536) == Value888(hi, mid, lo)
  {
    SmallPowers();
    OrSum(hi, mid * 256, 65536, 16);
    OrSum(hi * 256 + mid, lo, 256, 8);
    OrSum(mid, lo, 256, 8);
    OrSum(hi, mid * 256 + lo, 65536, 16);
  }

  /** The value the known layouts stand for. */
  function KnownValue(mode: RgbMode, c: Rgb): nat
    requires mode != GENERIC
  {
    match mode
    case RGB565 => Value565(c.red, c.green, c.blue)
    case BGR565 => Value565(c.blue, c.green, c.red)
    case RGB888 => Value888(c.red, c.green, c.blue)
    case BGR888 => Value888(c.blue, c.green, c.red)
  }

  lemma GenericOf565(c: Rgb)
    ensures GenericValue(Fields(11, 5, 5, 6, 0, 5), c) == Value565(c.red, c.green, c.blue)
    ensures GenericValue(Fields(0, 5, 5, 6, 11, 5), c) == Value565(c.blue, c.green, c.red)
  {
    ShortFields(c.red);
    ShortFields(c.green);
    ShortFields(c.blue);
    Or565(c.red, c.green, c.blue);
    Or565(c.blue, c.green, c.red);
  }

  lemma GenericOf888(c: Rgb)
    ensures GenericValue(Fields(16, 8, 8, 8, 0, 8), c) == Value888(c.red, c.green, c.blue)
    ensures GenericValue(Fields(0, 8, 8, 8, 16, 8), c) == Value888(c.blue, c.green, c.red)
  {
    ByteFields(c.red);
    ByteFields(c.green);
    ByteFields(c.blue);
    Or888(c.red, c.green, c.blue);
    Or888(c.blue, c.green, c.red);
  }

  lemma GenericOfKnownLayouts(f: Fields, c: Rgb)
    requires DetectMode(f) != GENERIC
    ensures GenericValue(f, c) == KnownValue(DetectMode(f), c)
  {
    GenericOf565(c);
    GenericOf888(c);
  }

  lemma LeOf888(hi: Byte, mid: Byte, lo: Byte)
    ensures Le(Value888(hi, mid, lo), 4) == [lo, mid, hi, 0]
  {
    var v2, v1: nat := hi as int, hi * 256 + mid;
    assert Le(0, 1) == [0] + Le(0, 0);
    assert Le(v2, 2) == [hi] + Le(0, 1);
    assert v1 % 0x100 == mid && v1 / 0x100 == v2;
    assert Le(v1, 3) == [mid] + Le(v2, 2);
    var v := v1 * 256 + lo;
    assert v % 0x100 == lo && v / 0x100 == v1;
    assert Le(v, 4) == [lo] + Le(v1, 3);
  }

  predicate Is565(mode: RgbMode) { mode == RGB565 || mode == BGR565 }

  /** The fast paths store what the generic path would store, at the depth their layout belongs to. */
  lemma FastPathMatchesGeneric(sh: Shape, c: Rgb)
    requires sh.mode == DetectMode(sh.fields) && sh.mode != GENERIC
    requires sh.bpp == if Is565(sh.mode) then 16 else 32
    ensures Pack(sh, c) == Pack(sh.(mode := GENERIC), c)
  {
    GenericOfKnownLayouts(sh.fields, c);
    assert Pack(sh.(mode := GENERIC), c) == Le(KnownValue(sh.mode, c), if sh.bpp == 32 then 4 else 2);
    LeOf888(c.red, c.green, c.blue);
    LeOf888(c.blue, c.green, c.red);
  }

  /** And not at the other depths they handle: the two agree on every colour if and only if the depth
      is that of the layout or one that neither stores. */
  lemma FastPathMatchesGenericIff(sh: Shape)
    requires sh.mode == DetectMode(sh.fields) && sh.mode != GENERIC
    ensures (forall c :: Pack(sh, c) == Pack(sh.(mode := GENERIC), c))
            <==> sh.bpp == (if Is565(sh.mode) then 16 else 32) || sh.bpp !in {16, 24, 32}
  {
    if sh.bpp == if Is565(sh.mode) then 16 else 32 {
      forall c ensures Pack(sh, c) == Pack(sh.(mode := GENERIC), c) { FastPathMatchesGeneric(sh, c); }
    } else if sh.bpp in {16, 24, 32} {
      var c := FastPathDiffers(sh);
    }
  }

  /** What the generic path stores for a known layout. */
  lemma GenericPack(sh: Shape, c: Rgb)
    requires sh.mode == DetectMode(sh.fields) && sh.mode != GENERIC
    ensures Pack(sh.(mode := GENERIC), c)
            == if sh.bpp == 32 then Le(KnownValue(sh.mode, c), 4)
               else if sh.bpp == 16 then Le(KnownValue(sh.mode, c), 2)
               else []
  {
    GenericOfKnownLayouts(sh.fields, c);
  }

  /** A colour for which they differ: blue at depth 16, white at the others. */
  lemma FastPathDiffers(sh: Shape) returns (c: Rgb)
    requires sh.mode == DetectMode(sh.fields) && sh.mode != GENERIC
    requires sh.bpp in {16, 24, 32} && sh.bpp != if Is565(sh.mode) then 16 else 32
    ensures Pack(sh, c) != Pack(sh.(mode := GENERIC), c)
  {
    if sh.bpp == 16 {
      c := DiffersAt16(sh);
    } else if sh.bpp == 32 {
      c := DiffersAt32(sh);
    } else {
      c := Rgb(255, 255, 255);
      GenericPack(sh, c);
    }
  }

  lemma DiffersAt16(sh: Shape) returns (c: Rgb)
    requires sh.mode == DetectMode(sh.fields) && (sh.mode == RGB888 || sh.mode == BGR888) && sh.bpp == 16
    ensures Pack(sh, c) != Pack(sh.(mode := GENERIC), c)
  {
    c := Rgb(0, 0, 8);
    GenericPack(sh, c);
    BlueDiffers(sh.mode);
  }

  lemma BlueDiffers(mode: RgbMode)
    requires mode == RGB888 || mode == BGR888
    ensures Le(KnownValue(mode, Rgb(0, 0, 8)), 2)
            != Le(if mode == RGB888 then Value565(0, 0, 8) else Value565(8, 0, 0), 2)
  {
    LeOfTwo(8);
    LeOfTwo(1);
    LeOfTwo(8 * 65536);
    LeOfTwo(2048);
  }

  lemma DiffersAt32(sh: Shape) returns (c: Rgb)
    requires sh.mode == DetectMode(sh.fields) && Is565(sh.mode) && sh.bpp == 32
    ensures Pack(sh, c) != Pack(sh.(mode := GENERIC), c)
  {
    c := Rgb(255, 255, 255);
    GenericPack(sh, c);
    WhiteDiffers(sh.mode);
    assert Pack(sh, c) == [255, 255, 255, 0];
  }

  lemma WhiteDiffers(mode: RgbMode)
    requires Is565(mode)
    ensures Le(KnownValue(mode, Rgb(255, 255, 255)), 4) != [255, 255, 255, 0]
  {
    LeThird(65535);
  }

  lemma LeOfTwo(v: nat)
    ensures Le(v, 2) == [v % 0x100, v / 0x100 % 0x100]
  {
    assert Le(v, 2) == [v % 0x100] + Le(v / 0x100, 1);
    assert Le(v / 0x100, 1) == [v / 0x100 % 0x100] + Le(v / 0x100 / 0x100, 0);
  }

  lemma LeThird(v: nat)
    ensures |Le(v, 4)| == 4 && Le(v, 4)[2] == v / 0x1_0000 % 0x100
  {
    var h := v / 0x100;
    LeOfTwo(h / 0x100);
    assert Le(h, 3) == [h % 0x100] + Le(h / 0x100, 2);
    assert Le(v, 4) == [v % 0x100] + Le(h, 3);
    HalfDivided256(v);
  }

  lemma HalfDivided256(v: nat)
    ensures v / 0x100 / 0x100 == v / 0x1_0000
  {
  }

  // Bit by bit.

  lemma {:induction false} ShiftRightBits(v: nat, k: nat, n: nat)
    ensures BitAt(ShiftRight(v, k), n) <==> BitAt(v, n + k)
  {
    if k > 0 { ShiftRightBits(v / 2, k - 1, n); }
  }

  lemma {:induction false} ShiftLeftBits(v: nat, k: nat, n: nat)
    ensures BitAt(ShiftLeft(v, k), n) <==> n >= k && BitAt(v, n - k)
  {
    if k > 0 {
      assert ShiftLeft(v, k) / 2 == ShiftLeft(v, k - 1) && ShiftLeft(v, k) % 2 == 0;
      if n > 0 { ShiftLeftBits(v, k - 1, n - 1); }
    }
  }

  /** Bit n of a generic pixel is the bit of the component whose field it lies in, the top bits of a
      component filling its field. */
  lemma GenericBits(f: Fields, c: Rgb, n: nat)
    requires f.redLength <= 8 && f.greenLength <= 8 && f.blueLength <= 8
    ensures BitAt(GenericValue(f, c), n)
            <==> || (n >= f.redOffset && BitAt(c.red, n - f.redOffset + 8 - f.redLength))
                 || (n >= f.greenOffset && BitAt(c.green, n - f.greenOffset + 8 - f.greenLength))
                 || (n >= f.blueOffset && BitAt(c.blue, n - f.blueOffset + 8 - f.blueLength))
  {
    FieldBits(c.red, f.redLength, f.redOffset, n);
    FieldBits(c.green, f.greenLength, f.greenOffset, n);
    FieldBits(c.blue, f.blueLength, f.blueOffset, n);
    var r, g := Field(c.red, f.redLength, f.redOffset), Field(c.green, f.greenLength, f.greenOffset);
    OrBits(r, g, n);
    OrBits(Or(r, g), Field(c.blue, f.blueLength, f.blueOffset), n);
  }

  lemma FieldBits(c: Byte, length: nat, offset: nat, n: nat)
    requires length <= 8
    ensures BitAt(Field(c, length, offset), n) <==> n >= offset && BitAt(c, n - offset + 8 - length)
  {
    ShiftLeftBits(ShiftRight(c, 8 - length), offset, n);
    if n >= offset { ShiftRightBits(c, 8 - length, n - offset); }
  }

  /** Byte i of a stored word holds its bits from 8 i on. */
  lemma {:induction false} LeBits(v: nat, n: nat, i: nat, j: nat)
    requires i < n && j < 8
    ensures BitAt(Le(v, n)[i], j) <==> BitAt(v, 8 * i + j)
  {
    if i > 0 {
      LeBits(v / 0x100, n - 1, i - 1, j);
      ByteBits(v, 8 * (i - 1) + j);
    } else {
      LowBits(v, j);
    }
  }

  lemma ByteBits(v: nat, n: nat)
    ensures BitAt(v / 0x100, n) <==> BitAt(v, n + 8)
  {
    ShiftRightBits(v, 8, n);
    var a, b := ShiftRight(v / 2 / 2 / 2 / 2, 4), v / 2 / 2 / 2 / 2;
    assert ShiftRight(v, 8) == ShiftRight(v / 2, 7) == ShiftRight(v / 2 / 2, 6) == ShiftRight(v / 2 / 2 / 2, 5) == a;
    assert a == ShiftRight(b / 2, 3) == ShiftRight(b / 2 / 2, 2) == ShiftRight(b / 2 / 2 / 2, 1) == b / 2 / 2 / 2 / 2;
    assert b == v / 16 && b / 2 / 2 / 2 / 2 == b / 16;
  }

  lemma LowBits(v: nat, j: nat)
    requires j < 8
    ensures BitAt(v % 0x100, j) <==> BitAt(v, j)
  {
    LowerBits(v / 0x100, v % 0x100, 8, j);
    SmallPowers();
  }

  lemma {:induction false} LowerBits(h: nat, l: nat, k: nat, j: nat)
    requires j < k
    ensures BitAt(h * Pow2(k) + l, j) <==> BitAt(l, j)
  {
    assert h * Pow2(k) == 2 * (h * Pow2(k - 1));
    if j > 0 {
      assert (h * Pow2(k) + l) / 2 == h * Pow2(k - 1) + l / 2;
      LowerBits(h, l / 2, k - 1, j - 1);
    }
  }

  /** The bytes of the known layouts: blue first where red is the high component, and the other way round. */
  lemma StoredBytes(sh: Shape, c: Rgb)
    requires sh.fields.redLength <= 8 && sh.fields.greenLength <= 8 && sh.fields.blueLength <= 8
    requires sh.mode != GENERIC
    ensures var b, red := Pack(sh, c), sh.mode == RGB565 || sh.mode == RGB888;
            var hi, lo := if red then c.red else c.blue, if red then c.blue else c.red;
            if sh.bpp == 24 then b == [lo, c.green, hi]
            else if sh.bpp == 32 then b == [lo, c.green, hi, 0]
            else if sh.bpp == 16 then
              |b| == 2 && b[0] as int + 256 * b[1] as int == hi / 8 * 2048 + c.green / 4 * 32 + lo / 8
            else b == []
  {
    Stored565(c.red, c.green, c.blue);
    Stored565(c.blue, c.green, c.red);
  }

  lemma Stored565(hi: Byte, mid: Byte, lo: Byte)
    ensures var b := Le(Value565(hi, mid, lo), 2);
            |b| == 2 && b[0] as int + 256 * b[1] as int == hi / 8 * 2048 + mid / 4 * 32 + lo / 8
  {
    LeOfTwo(Value565(hi, mid, lo));
  }

  /** A pixel of a generic layout is its word, low byte first; no other depth is stored. */
  lemma StoredGeneric(sh: Shape, c: Rgb)
    requires sh.fields.redLength <= 8 && sh.fields.greenLength <= 8 && sh.fields.blueLength <= 8
    requires sh.mode == GENERIC
    ensures |Pack(sh, c)| == if sh.bpp == 32 then 4 else if sh.bpp == 16 then 2 else 0
    ensures forall i, j :: 0 <= i < |Pack(sh, c)| && 0 <= j < 8 ==>
              (BitAt(Pack(sh, c)[i], j) <==> BitAt(GenericValue(sh.fields, c), 8 * i + j))
  {
    forall i, j | 0 <= i < |Pack(sh, c)| && 0 <= j < 8
      ensures BitAt(Pack(sh, c)[i], j) <==> BitAt(GenericValue(sh.fields, c), 8 * i + j)
    {
      LeBits(GenericValue(sh.fields, c), |Pack(sh, c)|, i, j);
    }
  }
}
