/** What the rotations and constants of SHA-1 are as numbers. */
module Sha1Laws {
  import opened Bytes
  import opened Sha1Spec

  /** A word as a number. */
  function Num(x: word): nat {
    x as nat
  }

  // A word in five pieces: the top bit and 8 + 8 + 8 + 7 more, or 8 + 8 + 8 + 7
  // and the lowest bit. The number of a word is put together from them.

  lemma Raw31(x: word)
    ensures Num(x) == 0x8000_0000 * Num(x >> 31) + Num(x & 0x7fff_ffff)
  {
  }

  lemma Raw23(x: word)
    ensures Num(x & 0x7fff_ffff) == 0x80_0000 * Num((x >> 23) & 0xff) + Num(x & 0x7f_ffff)
  {
  }

  lemma Raw15(x: word)
    ensures Num(x & 0x7f_ffff) == 0x8000 * Num((x >> 15) & 0xff) + Num(x & 0x7fff)
  {
  }

  lemma Raw7(x: word)
    ensures Num(x & 0x7fff) == 0x80 * Num((x >> 7) & 0xff) + Num(x & 0x7f)
  {
  }

  lemma Raw24(x: word)
    ensures Num(x) == 0x100_0000 * Num((x >> 24) & 0xff) + Num(x & 0xff_ffff)
  {
  }

  lemma Raw16(x: word)
    ensures Num(x & 0xff_ffff) == 0x1_0000 * Num((x >> 16) & 0xff) + Num(x & 0xffff)
  {
  }

  lemma Raw8(x: word)
    ensures Num(x & 0xffff) == 0x100 * Num((x >> 8) & 0xff) + Num(x & 0xff)
  {
  }

  lemma Raw1(x: word)
    ensures Num(x & 0xff) == 2 * Num((x >> 1) & 0x7f) + Num(x & 1)
  {
  }

  function Piece31(x: word): word { x >> 31 }
  function Piece23(x: word): word { (x >> 23) & 0xff }
  function Piece15(x: word): word { (x >> 15) & 0xff }
  function Piece7(x: word): word { (x >> 7) & 0xff }
  function Piece0(x: word): word { x & 0x7f }
  function Piece24(x: word): word { (x >> 24) & 0xff }
  function Piece16(x: word): word { (x >> 16) & 0xff }
  function Piece8(x: word): word { (x >> 8) & 0xff }
  function Piece1(x: word): word { (x >> 1) & 0x7f }
  function Bit0(x: word): word { x & 1 }

  lemma HighPieces(x: word)
    ensures Num(x) == 0x8000_0000 * Num(Piece31(x)) + 0x80_0000 * Num(Piece23(x)) + 0x8000 * Num(Piece15(x))
                      + 0x80 * Num(Piece7(x)) + Num(Piece0(x))
  {
    hide Num;
    Raw31(x);
    Raw23(x);
    Raw15(x);
    Raw7(x);
  }

  lemma LowPieces(x: word)
    ensures Num(x) == 0x100_0000 * Num(Piece24(x)) + 0x1_0000 * Num(Piece16(x)) + 0x100 * Num(Piece8(x))
                      + 2 * Num(Piece1(x)) + Num(Bit0(x))
  {
    hide Num;
    Raw24(x);
    Raw16(x);
    Raw8(x);
    Raw1(x);
  }

  lemma RotatedPieces(x: word, r: word)
    requires r == (x << 1) | (x >> 31)
    ensures (r >> 24) & 0xff == (x >> 23) & 0xff && (r >> 16) & 0xff == (x >> 15) & 0xff && (r >> 8) & 0xff == (x >> 7) & 0xff
    ensures (r >> 1) & 0x7f == x & 0x7f && r & 1 == x >> 31
    ensures x >> 31 < 2 && (x >> 23) & 0xff < 256 && (x >> 15) & 0xff < 256 && (x >> 7) & 0xff < 256 && x & 0x7f < 128
  {
  }

  lemma SmallNum(x: word)
    ensures x < 256 ==> Num(x) < 256
    ensures x < 128 ==> Num(x) < 128
    ensures x < 2 ==> Num(x) < 2
  {
  }

  lemma SamePieces(x: word)
    ensures var r := Rotl(1, x);
            && Piece24(r) == Piece23(x) && Piece16(r) == Piece15(x) && Piece8(r) == Piece7(x)
            && Piece1(r) == Piece0(x) && Bit0(r) == Piece31(x)
    ensures Num(Piece31(x)) < 2 && Num(Piece23(x)) < 256 && Num(Piece15(x)) < 256 && Num(Piece7(x)) < 256 && Num(Piece0(x)) < 128
  {
    hide Num;
    RotatedPieces(x, Rotl(1, x));
    SmallNum(Piece31(x));
    SmallNum(Piece23(x));
    SmallNum(Piece15(x));
    SmallNum(Piece7(x));
    SmallNum(Piece0(x));
  }

  /** Rotating by one doubles the number; what falls out at the top comes in below. */
  lemma RotatedByOne(x: word)
    ensures Num(Rotl(1, x)) == Num(x) * 2 % 0x1_0000_0000 + Num(x) / 0x8000_0000
  {
    hide Num, Rotl, Piece31, Piece23, Piece15, Piece7, Piece0, Piece24, Piece16, Piece8, Piece1, Bit0;
    SamePieces(x);
    HighPieces(x);
    LowPieces(Rotl(1, x));
    var a, b := Num(Piece31(x)), 0x80_0000 * Num(Piece23(x)) + 0x8000 * Num(Piece15(x)) + 0x80 * Num(Piece7(x)) + Num(Piece0(x));
    Exchange(Num(x), 2, 0x8000_0000, a, b);
  }

  /** A number cut in two, its parts exchanged. */
  lemma Exchange(x: nat, up: nat, down: nat, high: nat, low: nat)
    requires up > 0 && down > 0 && up * down == 0x1_0000_0000
    requires x == down * high + low && low < down && high < up
    ensures up * low + high == x * up % 0x1_0000_0000 + x / down
    ensures high == x / down && low == x % down
  {
    QuotientUnique(x, down, high, low);
    assert up * low < up * down;
    assert x * up == (up * down) * high + up * low;
    QuotientUnique(x * up, up * down, high, up * low);
  }

  lemma TopIsSmall(x: nat, down: nat, up: nat)
    requires down > 0 && x < down * up
    ensures x / down < up
  {
    var high, low := x / down, x % down;
    assert x == down * high + low;
    assert high >= up ==> down * high >= down * up;
  }

  lemma Fits(up: nat, half: nat, rest: nat, high: nat)
    requires rest < half && high < up
    ensures up * rest + high < up * half
  {
    assert up * rest <= up * (half - 1);
    assert up * (half - 1) == up * half - up;
  }

  /** What has been rotated several times, in three parts: the top bit, and the rest. */
  lemma ThreeParts(x: nat, up: nat, half: nat, high: nat, bit: nat, rest: nat)
    requires up > 0 && half > 0 && up * half == 0x8000_0000
    requires x == half * (2 * high + bit) + rest && rest < half && bit < 2 && high < up
    ensures var r := x * up % 0x1_0000_0000 + x / (2 * half);
            r == 0x8000_0000 * bit + (up * rest + high)
  {
    var down, low := 2 * half, half * bit + rest;
    assert up * down == 2 * (up * half);
    assert half * (2 * high + bit) == down * high + half * bit;
    assert low < down by { assert half * bit <= half; }
    Exchange(x, up, down, high, low);
    assert up * low == up * (half * bit) + up * rest;
    assert up * (half * bit) == (up * half) * bit;
  }

  /** One more rotation by one. */
  lemma OnceMore(x: nat, r: nat, up: nat, half: nat)
    requires up > 0 && half > 0 && up * half == 0x8000_0000 && x < 0x1_0000_0000
    requires r == x * up % 0x1_0000_0000 + x / (2 * half)
    ensures r * 2 % 0x1_0000_0000 + r / 0x8000_0000 == x * (2 * up) % 0x1_0000_0000 + x / half
  {
    var top, rest := x / half, x % half;
    var high, bit := top / 2, top % 2;
    assert x == half * (2 * high + bit) + rest;
    assert half * (2 * up) == 0x1_0000_0000;
    TopIsSmall(x, half, 2 * up);
    ThreeParts(x, up, half, high, bit, rest);
    Fits(up, half, rest, high);
    Exchange(r, 2, 0x8000_0000, bit, up * rest + high);
    assert (2 * up) * half == 0x1_0000_0000;
    Exchange(x, 2 * up, half, top, rest);
    assert (2 * up) * rest == 2 * (up * rest);
  }

  lemma Rotations(x: word)
    ensures Rotl(5, x) == Rotl(1, Rotl(1, Rotl(1, Rotl(1, Rotl(1, x)))))
    ensures Rotl(1, Rotl(1, Rotl(30, x))) == x
  {
  }

  lemma NumIsSmall(x: word)
    ensures Num(x) < 0x1_0000_0000
  {
  }

  /** The rotations of the rounds, as multiplications. */
  lemma RotationIsArithmetic(x: word)
    ensures Num(Rotl(1, x)) == Num(x) * 2 % 0x1_0000_0000 + Num(x) / 0x8000_0000
    ensures Num(Rotl(5, x)) == Num(x) * 32 % 0x1_0000_0000 + Num(x) / 0x800_0000
    ensures Num(Rotl(30, x)) == Num(x) * 0x4000_0000 % 0x1_0000_0000 + Num(x) / 4
  {
    hide Num, Rotl;
    Rotations(x);
    var r1, z := Rotl(1, x), Rotl(30, x);
    var r2 := Rotl(1, r1);
    var r3 := Rotl(1, r2);
    var r4 := Rotl(1, r3);
    NumIsSmall(x);
    NumIsSmall(z);
    RotatedByOne(x);
    RotatedByOne(r1);
    RotatedByOne(r2);
    RotatedByOne(r3);
    RotatedByOne(r4);
    OnceMore(Num(x), Num(r1), 2, 0x4000_0000);
    OnceMore(Num(x), Num(r2), 4, 0x2000_0000);
    OnceMore(Num(x), Num(r3), 8, 0x1000_0000);
    OnceMore(Num(x), Num(r4), 16, 0x800_0000);
    RotatedByOne(z);
    RotatedByOne(Rotl(1, z));
    OnceMore(Num(z), Num(Rotl(1, z)), 2, 0x4000_0000);
    Back(Num(x), Num(z));
  }

  /** Rotating by 30 undoes rotating by 2. */
  lemma Back(x: nat, z: nat)
    requires z < 0x1_0000_0000 && x == z * 4 % 0x1_0000_0000 + z / 0x4000_0000
    ensures z == x * 0x4000_0000 % 0x1_0000_0000 + x / 4
  {
    var high, low := z / 0x4000_0000, z % 0x4000_0000;
    Exchange(z, 4, 0x4000_0000, high, low);
    Exchange(x, 0x4000_0000, 4, low, high);
  }

  /** The constants are the square roots of 2, 3, 5 and 10, times 2^30. */
  lemma ConstantsAreRoots(t: nat)
    requires t < 80
    ensures var k, m := Num(Constant(t)), if t < 20 then 2 else if t < 40 then 3 else if t < 60 then 5 else 10;
            k * k <= m * 0x1000_0000_0000_0000 < (k + 1) * (k + 1)
  {
    assert Num(0x5a827999) == 0x5a827999 && Num(0x6ed9eba1) == 0x6ed9eba1;
    assert Num(0x8f1bbcdc) == 0x8f1bbcdc && Num(0xca62c1d6) == 0xca62c1d6;
  }
}
