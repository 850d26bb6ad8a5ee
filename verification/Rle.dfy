/** The run-length stream that psplash_draw_image reads: a length byte, its top bit set for a run
    of one pixel and clear for that many pixels in full; a zero length ends the stream. */
module PsplashRle {
  import opened Wrappers
  import opened Words
  import opened PsplashCanvas

  /** One decoded pixel; not visible for zero alpha in a four byte image. */
  datatype Texel = Texel(visible: bool, colour: Rgb)

  /** How many bytes one pixel needs in the stream. */
  function Needs(bytesPerPixel: nat): nat { if bytesPerPixel < 3 then 3 else bytesPerPixel }

  function TexelAt(s: Bytes, bytesPerPixel: nat): Texel
    requires Needs(bytesPerPixel) <= |s|
  {
    Texel(bytesPerPixel < 4 || s[3] != 0, Rgb(s[0], s[1], s[2]))
  }

  /** What a packet yielded, and the stream and the budget (bytes before the limit) after it. */
  datatype Step = Step(texels: seq<Texel>, tail: Bytes, budget: int)

  /** A literal packet: n pixels, but none once the budget is spent. */
  function Literal(s: Bytes, budget: int, bytesPerPixel: nat, n: nat): (r: Option<Step>)
    requires n > 0
    ensures r.Some? ==> |r.value.tail| + bytesPerPixel <= |s|
    decreases n
  {
    if |s| < Needs(bytesPerPixel) then None
    else
      var first, tail, left := TexelAt(s, bytesPerPixel), s[bytesPerPixel..], budget - bytesPerPixel;
      if n == 1 || left <= 0 then Some(Step([first], tail, left))
      else
        match Literal(tail, left, bytesPerPixel, n - 1)
        case None => None
        case Some(rest) => Some(rest.(texels := [first] + rest.texels))
  }

  function Repeat(t: Texel, n: nat): (r: seq<Texel>)
    ensures |r| == n
  {
    if n == 0 then [] else Repeat(t, n - 1) + [t]
  }

  function Append(a: seq<Texel>, b: Option<seq<Texel>>): Option<seq<Texel>> {
    match b
    case None => None
    case Some(ts) => Some(a + ts)
  }

  /** All pixels of a stream, read up to the budget; None when a read would leave the stream. */
  function Decode(s: Bytes, budget: int, bytesPerPixel: nat): Option<seq<Texel>>
    requires bytesPerPixel > 0
    decreases |s|
  {
    if budget <= 0 then Some([])
    else if s == [] then None
    else if s[0] % 128 == 0 then Some([])
    else if s[0] >= 128 then DecodeRun(s[0] - 128, s[1..], budget - 1, bytesPerPixel)
    else
      match Literal(s[1..], budget - 1, bytesPerPixel, s[0])
      case None => None
      case Some(step) => Append(step.texels, Decode(step.tail, step.budget, bytesPerPixel))
  }

  /** The rest of a stream after the length byte of a run of n. */
  function DecodeRun(n: nat, s: Bytes, budget: int, bytesPerPixel: nat): Option<seq<Texel>>
    requires bytesPerPixel > 0
    decreases |s|
  {
    if |s| < Needs(bytesPerPixel) then None
    else Append(Repeat(TexelAt(s, bytesPerPixel), n), Decode(s[bytesPerPixel..], budget - bytesPerPixel, bytesPerPixel))
  }

  // Streams that an encoder would write.

  datatype Packet = Run(n: nat, pixel: Bytes) | Pixels(pixels: seq<Bytes>)

  predicate AllSized(bytesPerPixel: nat, pixels: seq<Bytes>) {
    pixels != [] ==> |pixels[0]| == bytesPerPixel && AllSized(bytesPerPixel, pixels[1..])
  }

  predicate Fits(bytesPerPixel: nat, pk: Packet) {
    match pk
    case Run(n, pixel) => 0 < n < 128 && |pixel| == bytesPerPixel
    case Pixels(pixels) => 0 < |pixels| < 128 && AllSized(bytesPerPixel, pixels)
  }

  predicate WellFormed(bytesPerPixel: nat, pks: seq<Packet>) {
    pks != [] ==> Fits(bytesPerPixel, pks[0]) && WellFormed(bytesPerPixel, pks[1..])
  }

  function Concat(pixels: seq<Bytes>): Bytes {
    if pixels == [] then [] else pixels[0] + Concat(pixels[1..])
  }

  function PacketBytes(bytesPerPixel: nat, pk: Packet): (b: Bytes)
    requires Fits(bytesPerPixel, pk)
    ensures b != []
  {
    match pk
    case Run(n, pixel) => [128 + n] + pixel
    case Pixels(pixels) => [|pixels|] + Concat(pixels)
  }

  function Stream(bytesPerPixel: nat, pks: seq<Packet>): (s: Bytes)
    requires WellFormed(bytesPerPixel, pks)
    ensures s != []
  {
    if pks == [] then [0] else PacketBytes(bytesPerPixel, pks[0]) + Stream(bytesPerPixel, pks[1..])
  }

  function TexelOf(pixel: Bytes): Texel
    requires |pixel| >= 3
  {
    Texel(|pixel| < 4 || pixel[3] != 0, Rgb(pixel[0], pixel[1], pixel[2]))
  }

  function Texels(bytesPerPixel: nat, pixels: seq<Bytes>): seq<Texel>
    requires bytesPerPixel >= 3 && AllSized(bytesPerPixel, pixels)
  {
    if pixels == [] then [] else [TexelOf(pixels[0])] + Texels(bytesPerPixel, pixels[1..])
  }

  function PacketMeaning(bytesPerPixel: nat, pk: Packet): seq<Texel>
    requires bytesPerPixel >= 3 && Fits(bytesPerPixel, pk)
  {
    match pk
    case Run(n, pixel) => Repeat(TexelOf(pixel), n)
    case Pixels(pixels) => Texels(bytesPerPixel, pixels)
  }

  /** What the packets mean. */
  function Meaning(bytesPerPixel: nat, pks: seq<Packet>): seq<Texel>
    requires bytesPerPixel >= 3 && WellFormed(bytesPerPixel, pks)
  {
    if pks == [] then [] else PacketMeaning(bytesPerPixel, pks[0]) + Meaning(bytesPerPixel, pks[1..])
  }

  /** One pixel of a literal packet. */
  lemma LiteralReadsPixel(pixel: Bytes, rest: Bytes, budget: int, bytesPerPixel: nat, n: nat)
    requires |pixel| == bytesPerPixel >= 3 && n > 0 && rest != [] && budget >= |pixel| + |rest|
    ensures Literal(pixel + rest, budget, bytesPerPixel, n)
            == if n == 1 then Some(Step([TexelOf(pixel)], rest, budget - bytesPerPixel))
               else match Literal(rest, budget - bytesPerPixel, bytesPerPixel, n - 1)
                    case None => None
                    case Some(step) => Some(step.(texels := [TexelOf(pixel)] + step.texels))
  {
    assert (pixel + rest)[bytesPerPixel..] == rest;
  }

  lemma {:induction false} LiteralReadsPixels(pixels: seq<Bytes>, tail: Bytes, budget: int, bytesPerPixel: nat)
    requires bytesPerPixel >= 3 && pixels != [] && AllSized(bytesPerPixel, pixels)
    requires tail != [] && budget >= |Concat(pixels)| + |tail|
    ensures Literal(Concat(pixels) + tail, budget, bytesPerPixel, |pixels|)
            == Some(Step(Texels(bytesPerPixel, pixels), tail, budget - |Concat(pixels)|))
    decreases |pixels|
  {
    var pixel, more := pixels[0], pixels[1..];
    assert Concat(pixels) + tail == pixel + (Concat(more) + tail);
    LiteralReadsPixel(pixel, Concat(more) + tail, budget, bytesPerPixel, |pixels|);
    assert |Concat(pixels)| == bytesPerPixel + |Concat(more)|;
    if more == [] {
      assert Concat(more) + tail == tail;
      assert Texels(bytesPerPixel, pixels) == [TexelOf(pixel)];
    } else {
      LiteralReadsPixels(more, tail, budget - bytesPerPixel, bytesPerPixel);
    }
  }

  lemma RunStep(n: nat, pixel: Bytes, rest: Bytes, budget: int, bytesPerPixel: nat)
    requires 0 < n < 128 && |pixel| == bytesPerPixel >= 3 && budget > |pixel| + |rest|
    ensures Decode([128 + n] + pixel + rest, budget, bytesPerPixel)
            == Append(Repeat(TexelOf(pixel), n), Decode(rest, budget - 1 - bytesPerPixel, bytesPerPixel))
  {
    assert ([128 + n] + pixel + rest)[1..] == pixel + rest;
    assert (pixel + rest)[bytesPerPixel..] == rest;
  }

  lemma PixelsStep(pixels: seq<Bytes>, rest: Bytes, budget: int, bytesPerPixel: nat)
    requires 0 < |pixels| < 128 && bytesPerPixel >= 3 && AllSized(bytesPerPixel, pixels)
    requires rest != [] && budget > |Concat(pixels)| + |rest|
    ensures Decode([|pixels|] + Concat(pixels) + rest, budget, bytesPerPixel)
            == Append(Texels(bytesPerPixel, pixels), Decode(rest, budget - 1 - |Concat(pixels)|, bytesPerPixel))
  {
    assert ([|pixels|] + Concat(pixels) + rest)[1..] == Concat(pixels) + rest;
    LiteralReadsPixels(pixels, rest, budget - 1, bytesPerPixel);
  }

  lemma PacketStep(pk: Packet, rest: Bytes, budget: int, bytesPerPixel: nat)
    requires bytesPerPixel >= 3 && Fits(bytesPerPixel, pk)
    requires rest != [] && budget >= |PacketBytes(bytesPerPixel, pk) + rest|
    ensures Decode(PacketBytes(bytesPerPixel, pk) + rest, budget, bytesPerPixel)
            == Append(PacketMeaning(bytesPerPixel, pk),
                      Decode(rest, budget - |PacketBytes(bytesPerPixel, pk)|, bytesPerPixel))
  {
    match pk
    case Run(n, pixel) =>
      RunStep(n, pixel, rest, budget, bytesPerPixel);
      assert PacketBytes(bytesPerPixel, pk) == [128 + n] + pixel;
    case Pixels(pixels) =>
      PixelsStep(pixels, rest, budget, bytesPerPixel);
      assert PacketBytes(bytesPerPixel, pk) == [|pixels|] + Concat(pixels);
  }

  /** Every well-formed stream within the budget decodes to its meaning. */
  lemma {:induction false} DecodeReadsStream(pks: seq<Packet>, budget: int, bytesPerPixel: nat)
    requires bytesPerPixel >= 3 && WellFormed(bytesPerPixel, pks)
    requires budget >= |Stream(bytesPerPixel, pks)|
    ensures Decode(Stream(bytesPerPixel, pks), budget, bytesPerPixel) == Some(Meaning(bytesPerPixel, pks))
    decreases |pks|
  {
    if pks != [] {
      PacketStep(pks[0], Stream(bytesPerPixel, pks[1..]), budget, bytesPerPixel);
      DecodeReadsStream(pks[1..], budget - |PacketBytes(bytesPerPixel, pks[0])|, bytesPerPixel);
    }
  }

  // Byte by byte.

  /** A pixel is red, green, blue and, in four bytes, an alpha that hides it if zero. */
  lemma TexelLayout(s: Bytes, bytesPerPixel: nat)
    requires |s| >= 3 && |s| >= bytesPerPixel
    ensures Needs(bytesPerPixel) <= |s|
    ensures TexelAt(s, bytesPerPixel).colour == Rgb(s[0], s[1], s[2])
    ensures TexelAt(s, bytesPerPixel).visible <==> bytesPerPixel < 4 || s[3] != 0
    ensures TexelOf(s).colour == Rgb(s[0], s[1], s[2]) && (TexelOf(s).visible <==> |s| < 4 || s[3] != 0)
  {
  }

  /** The pixels of a literal packet are bytesPerPixel apart. */
  lemma {:induction false} LiteralReads(s: Bytes, budget: int, bytesPerPixel: nat, n: nat, k: nat)
    requires n > 0 && Literal(s, budget, bytesPerPixel, n).Some?
    requires k < |Literal(s, budget, bytesPerPixel, n).value.texels|
    ensures PixelAt(s, bytesPerPixel, k) == Some(Literal(s, budget, bytesPerPixel, n).value.texels[k])
    decreases n
  {
    if k > 0 {
      PixelAtNext(s, bytesPerPixel, k);
      LiteralReads(s[bytesPerPixel..], budget - bytesPerPixel, bytesPerPixel, n - 1, k - 1);
    } else {
      assert 0 * bytesPerPixel == 0 && s[0..] == s;
    }
  }

  /** It reads m of its n pixels, fewer than n only once the limit is reached, and the first in any case. */
  lemma {:induction false} LiteralCounts(s: Bytes, budget: int, bytesPerPixel: nat, n: nat) returns (m: nat)
    requires n > 0 && Literal(s, budget, bytesPerPixel, n).Some?
    ensures m == |Literal(s, budget, bytesPerPixel, n).value.texels| && 1 <= m <= n
    ensures Literal(s, budget, bytesPerPixel, n).value.budget == budget - m * bytesPerPixel
    ensures m * bytesPerPixel <= |s| && Literal(s, budget, bytesPerPixel, n).value.tail == s[m * bytesPerPixel..]
    ensures (m < n ==> budget - m * bytesPerPixel <= 0) && (m > 1 ==> budget - (m - 1) * bytesPerPixel > 0)
    decreases n
  {
    m := 1;
    var left := budget - bytesPerPixel;
    if n > 1 && left > 0 {
      var h := LiteralCounts(s[bytesPerPixel..], left, bytesPerPixel, n - 1);
      Distribute(h, bytesPerPixel);
      m := h + 1;
    }
  }

  lemma Distribute(h: nat, n: nat)
    ensures (h + 1) * n == h * n + n && 1 * n == n && h * n >= 0
    ensures h > 0 ==> h * n == (h - 1) * n + n
  {
    MulMonotone(0, h, n);
  }

  /** Pixel k of the bytes, if all it needs is there. */
  function PixelAt(s: Bytes, bytesPerPixel: nat, k: nat): Option<Texel> {
    MulMonotone(0, k, bytesPerPixel);
    var at := k * bytesPerPixel;
    if at + Needs(bytesPerPixel) <= |s| then Some(TexelAt(s[at..], bytesPerPixel)) else None
  }

  lemma PixelAtNext(s: Bytes, bytesPerPixel: nat, k: nat)
    requires k > 0 && bytesPerPixel <= |s|
    ensures PixelAt(s, bytesPerPixel, k) == PixelAt(s[bytesPerPixel..], bytesPerPixel, k - 1)
  {
    var at := (k - 1) * bytesPerPixel;
    MulMonotone(0, k - 1, bytesPerPixel);
    assert k * bytesPerPixel == at + bytesPerPixel;
    if at + bytesPerPixel <= |s| { assert s[bytesPerPixel..][at..] == s[at + bytesPerPixel..]; }
  }

  /** It fails only at a pixel before the limit that is not there in full. */
  lemma {:induction false} LiteralFails(s: Bytes, budget: int, bytesPerPixel: nat, n: nat) returns (k: nat)
    requires bytesPerPixel > 0 && n > 0 && Literal(s, budget, bytesPerPixel, n) == None
    ensures k < n && PixelAt(s, bytesPerPixel, k) == None && (k == 0 || k * bytesPerPixel < budget)
    decreases n
  {
    k := 0;
    if |s| >= Needs(bytesPerPixel) {
      var h := LiteralFails(s[bytesPerPixel..], budget - bytesPerPixel, bytesPerPixel, n - 1);
      k := h + 1;
      assert k * bytesPerPixel == h * bytesPerPixel + bytesPerPixel && 0 * bytesPerPixel == 0;
      PixelAtNext(s, bytesPerPixel, k);
    }
  }

  /** Reading ends at the limit or at a length of zero, and fails if the stream ends before; a run takes one
      pixel, however near the limit. */
  lemma PacketsInTurn(s: Bytes, budget: int, bytesPerPixel: nat)
    requires bytesPerPixel > 0
    ensures budget <= 0 ==> Decode(s, budget, bytesPerPixel) == Some([])
    ensures budget > 0 && s == [] ==> Decode(s, budget, bytesPerPixel) == None
    ensures budget > 0 && s != [] && (s[0] == 0 || s[0] == 128) ==> Decode(s, budget, bytesPerPixel) == Some([])
    ensures budget > 0 && s != [] && 0 < s[0] < 128 ==>
              match Literal(s[1..], budget - 1, bytesPerPixel, s[0])
              case None => Decode(s, budget, bytesPerPixel) == None
              case Some(step) => Decode(s, budget, bytesPerPixel)
                                 == Append(step.texels, Decode(step.tail, step.budget, bytesPerPixel))
    ensures budget > 0 && s != [] && s[0] > 128 ==>
              match PixelAt(s[1..], bytesPerPixel, 0)
              case None => Decode(s, budget, bytesPerPixel) == None
              case Some(t) => Decode(s, budget, bytesPerPixel)
                              == Append(seq(s[0] - 128, _ => t),
                                        Decode(s[1 + bytesPerPixel..], budget - 1 - bytesPerPixel, bytesPerPixel))
  {
    assert 0 * bytesPerPixel == 0;
    if budget > 0 && s != [] && s[0] > 128 {
      assert s[1..][0..] == s[1..];
      if PixelAt(s[1..], bytesPerPixel, 0).Some? {
        assert s[1..][bytesPerPixel..] == s[1 + bytesPerPixel..];
        RepeatIs(TexelAt(s[1..], bytesPerPixel), s[0] - 128);
      }
    }
  }

  lemma {:induction false} RepeatIs(t: Texel, n: nat)
    ensures Repeat(t, n) == seq(n, _ => t)
  {
    if n > 0 { RepeatIs(t, n - 1); }
  }

  /** What an encoder may write: a length of 1 to 127, with the top bit set before one pixel and clear before
      that many. */
  lemma PacketForm(n: nat, pixel: Bytes, pixels: seq<Bytes>)
    ensures Fits(|pixel|, Run(n, pixel)) <==> 1 <= n <= 127
    ensures 1 <= n <= 127 ==> PacketBytes(|pixel|, Run(n, pixel)) == [128 + n] + pixel
    ensures Fits(|pixel|, Pixels(pixels)) <==> 1 <= |pixels| <= 127 && AllSized(|pixel|, pixels)
    ensures Fits(|pixel|, Pixels([pixel])) && PacketBytes(|pixel|, Pixels([pixel])) == [1] + pixel
  {
    assert Concat([pixel]) == pixel + Concat([]) == pixel && [pixel][1..] == [];
  }

  /** A run of two, one pixel in full, and the end. */
  lemma DecodesForInstance()
    ensures var red, green := Texel(true, Rgb(255, 0, 0)), Texel(true, Rgb(0, 255, 0));
            Decode([130, 255, 0, 0, 1, 0, 255, 0, 0], 9, 3) == Some([red, red, green])
  {
    var red, green := Texel(true, Rgb(255, 0, 0)), Texel(true, Rgb(0, 255, 0));
    var rest: Bytes := [1, 0, 255, 0, 0];
    RunStep(2, [255, 0, 0], rest, 9, 3);
    assert [128 + 2] + [255, 0, 0] + rest == [130, 255, 0, 0, 1, 0, 255, 0, 0];
    PixelsStep([[0, 255, 0]], [0], 5, 3);
    assert Concat([[0, 255, 0]]) == [0, 255, 0] + Concat([]);
    assert [1] + Concat([[0, 255, 0]]) + [0] == rest;
    assert Texels(3, [[0, 255, 0]]) == [green] + Texels(3, []);
    assert Repeat(red, 2) == Repeat(red, 1) + [red] && Repeat(red, 1) == Repeat(red, 0) + [red];
    assert Decode([0], 1, 3) == Some([]);
    assert [green] + [] == [green] && [red, red] + [green] == [red, red, green];
    assert Decode(rest, 5, 3) == Append([green], Some([]));
    assert TexelOf([255, 0, 0]) == red && Repeat(red, 2) == [red, red];
  }
}
