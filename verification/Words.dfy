/** Machine words as ranges of integers, their bits and their bytes. */
module Words {
  type Byte = x: int | 0 <= x < 0x100
  type U16 = x: int | 0 <= x < 0x1_0000
  type U32 = x: int | 0 <= x < 0x1_0000_0000
  type Bytes = seq<Byte>

  /** Bit n of g is set. */
  predicate BitAt(g: nat, n: nat) { if n == 0 then g % 2 == 1 else BitAt(g / 2, n - 1) }

  function Pow2(n: nat): (p: nat)
    ensures p > 0
  {
    if n == 0 then 1 else 2 * Pow2(n - 1)
  }

  lemma SmallPowers()
    ensures Pow2(0) == 1 && Pow2(2) == 4 && Pow2(3) == 8 && Pow2(5) == 32 && Pow2(8) == 256
    ensures Pow2(11) == 2048 && Pow2(16) == 65536
  {
    assert Pow2(1) == 2 && Pow2(2) == 4 && Pow2(3) == 8 && Pow2(4) == 16 && Pow2(5) == 32 && Pow2(6) == 64;
    assert Pow2(7) == 128 && Pow2(8) == 256 && Pow2(9) == 512 && Pow2(10) == 1024 && Pow2(11) == 2048;
    assert Pow2(12) == 4096 && Pow2(13) == 8192 && Pow2(14) == 16384 && Pow2(15) == 32768 && Pow2(16) == 65536;
  }

  lemma {:induction false} HalfDivided(g: nat, p: nat)
    requires p > 0
    ensures g / 2 / p == g / (2 * p)
  {
    var q, r := g / (2 * p), g % (2 * p);
    assert g == q * (2 * p) + r && 0 <= r < 2 * p;
    assert g == 2 * (q * p) + r;
    assert g / 2 == q * p + r / 2 && 0 <= r / 2 < p;
    QuotientIs(g / 2, p, q, r / 2);
  }

  lemma QuotientIs(g: nat, p: nat, q: nat, r: nat)
    requires p > 0 && g == q * p + r && r < p
    ensures g / p == q
  {
    var d := g / p;
    assert g == d * p + g % p;
    if d < q { MulMonotone(d + 1, q, p); }
    if d > q { MulMonotone(q + 1, d, p); }
  }

  lemma {:induction false} MulMonotone(a: int, b: int, c: int)
    requires a <= b && 0 <= c
    ensures a * c <= b * c
  {
  }

  /** Bit n counts for the n-th power of two. */
  lemma {:induction false} BitAtIs(g: nat, n: nat)
    ensures BitAt(g, n) <==> g / Pow2(n) % 2 == 1
  {
    if n > 0 {
      BitAtIs(g / 2, n - 1);
      HalfDivided(g, Pow2(n - 1));
    }
  }

  /** Bitwise or. */
  function Or(a: nat, b: nat): nat
    decreases a + b
  {
    if a == 0 then b else if b == 0 then a
    else 2 * Or(a / 2, b / 2) + if a % 2 == 1 || b % 2 == 1 then 1 else 0
  }

  lemma {:induction false} OrAtLeast(a: nat, b: nat)
    ensures Or(a, b) >= a && Or(a, b) >= b
    decreases a + b
  {
    if a > 0 && b > 0 { OrAtLeast(a / 2, b / 2); }
  }

  lemma {:induction false} OrBits(a: nat, b: nat, n: nat)
    ensures BitAt(Or(a, b), n) <==> BitAt(a, n) || BitAt(b, n)
    decreases a + b, n
  {
    if a == 0 || b == 0 {
      ZeroHasNoBits(n);
    } else {
      var h := Or(a / 2, b / 2);
      assert Or(a, b) / 2 == h && (Or(a, b) % 2 == 1 <==> a % 2 == 1 || b % 2 == 1);
      if n > 0 { OrBits(a / 2, b / 2, n - 1); }
    }
  }

  lemma {:induction false} ZeroHasNoBits(n: nat)
    ensures !BitAt(0, n)
  {
    if n > 0 { ZeroHasNoBits(n - 1); }
  }

  // Little-endian fields.

  function Le16(x: U16): (b: Bytes)
    ensures |b| == 2
  {
    [x % 0x100, x / 0x100]
  }

  function Le32(x: U32): (b: Bytes)
    ensures |b| == 4
  {
    [x % 0x100, x / 0x100 % 0x100, x / 0x1_0000 % 0x100, x / 0x100_0000]
  }

  function ReadLe16(b: Bytes, at: nat): U16
    requires at + 2 <= |b|
  {
    b[at] as int + 0x100 * b[at + 1] as int
  }

  function ReadLe32(b: Bytes, at: nat): U32
    requires at + 4 <= |b|
  {
    b[at] as int + 0x100 * b[at + 1] as int + 0x1_0000 * b[at + 2] as int + 0x100_0000 * b[at + 3] as int
  }

  /** The first byte counts least, both written and read. */
  lemma WordsAreLittleEndian(x: U16, y: U32, b: Bytes, at: nat)
    requires at + 4 <= |b|
    ensures Le16(x)[0] as int + 256 * Le16(x)[1] as int == x
    ensures ReadLe16(b, at) == b[at] as int + 256 * b[at + 1] as int
    ensures var w := Le32(y); w[0] as int + 256 * w[1] as int + 65536 * w[2] as int + 16777216 * w[3] as int == y
    ensures ReadLe32(b, at)
            == b[at] as int + 256 * b[at + 1] as int + 65536 * b[at + 2] as int + 16777216 * b[at + 3] as int
  {
    Le32RoundTrip(y);
  }

  lemma Le16RoundTrip(x: U16)
    ensures ReadLe16(Le16(x), 0) == x
  {
  }

  lemma Le32RoundTrip(x: U32)
    ensures ReadLe32(Le32(x), 0) == x
  {
    var q1, q2 := x / 0x100, x / 0x1_0000;
    assert x == x % 0x100 + 0x100 * q1;
    assert q1 == q1 % 0x100 + 0x100 * q2;
    assert q2 == q2 % 0x100 + 0x100 * (x / 0x100_0000);
  }
}
