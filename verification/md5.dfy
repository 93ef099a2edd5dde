/** MD5 (RFC 1321): the digest of a byte string as the RFC defines it, and the
    streaming computation that the server uses, proved to agree with it. */
module Md5Spec {
  import opened Blocks
  import opened Bytes

  type word = bv32

  datatype Registers = Registers(a: word, b: word, c: word, d: word)

  const INITIAL := Registers(0x67452301, 0xefcdab89, 0x98badcfe, 0x10325476)

  function Rotate(w: word, s: nat): word
    requires s <= 32
  {
    (w << s) | (w >> (32 - s))
  }

  // The four auxiliary functions (section 3.4 of RFC 1321)

  function F(x: word, y: word, z: word): word {
    (x & y) | (!x & z)
  }

  function G(x: word, y: word, z: word): word {
    (x & z) | (y & !z)
  }

  function H(x: word, y: word, z: word): word {
    x ^ y ^ z
  }

  function I(x: word, y: word, z: word): word {
    y ^ (x | !z)
  }

  function Mix(round: nat, x: word, y: word, z: word): word {
    if round == 0 then F(x, y, z) else if round == 1 then G(x, y, z) else if round == 2 then H(x, y, z) else I(x, y, z)
  }

  /** Which word of the block step `i` uses. */
  function Pick(i: nat): nat {
    if i < 16 then i
    else if i < 32 then (1 + 5 * i) % 16
    else if i < 48 then (5 + 3 * i) % 16
    else 7 * i % 16
  }

  function Shift(i: nat): (s: nat)
    ensures s <= 32
  {
    var j := i % 4;
    if i < 16 then if j == 0 then 7 else if j == 1 then 12 else if j == 2 then 17 else 22
    else if i < 32 then if j == 0 then 5 else if j == 1 then 9 else if j == 2 then 14 else 20
    else if i < 48 then if j == 0 then 4 else if j == 1 then 11 else if j == 2 then 16 else 23
    else if j == 0 then 6 else if j == 1 then 10 else if j == 2 then 15 else 21
  }

  /** The sine table: entry `i` is the integer part of 4294967296 * abs(sin(i + 1)). */
  function T(i: nat): word {
    if i < 16 then T0(i) else if i < 32 then T1(i) else if i < 48 then T2(i) else T3(i)
  }

  function T0(i: nat): word {
    if i == 0 then 0xd76aa478 else if i == 1 then 0xe8c7b756 else if i == 2 then 0x242070db else if i == 3 then 0xc1bdceee
    else if i == 4 then 0xf57c0faf else if i == 5 then 0x4787c62a else if i == 6 then 0xa8304613 else if i == 7 then 0xfd469501
    else if i == 8 then 0x698098d8 else if i == 9 then 0x8b44f7af else if i == 10 then 0xffff5bb1 else if i == 11 then 0x895cd7be
    else if i == 12 then 0x6b901122 else if i == 13 then 0xfd987193 else if i == 14 then 0xa679438e else 0x49b40821
  }

  function T1(i: nat): word {
    if i == 16 then 0xf61e2562 else if i == 17 then 0xc040b340 else if i == 18 then 0x265e5a51 else if i == 19 then 0xe9b6c7aa
    else if i == 20 then 0xd62f105d else if i == 21 then 0x02441453 else if i == 22 then 0xd8a1e681 else if i == 23 then 0xe7d3fbc8
    else if i == 24 then 0x21e1cde6 else if i == 25 then 0xc33707d6 else if i == 26 then 0xf4d50d87 else if i == 27 then 0x455a14ed
    else if i == 28 then 0xa9e3e905 else if i == 29 then 0xfcefa3f8 else if i == 30 then 0x676f02d9 else 0x8d2a4c8a
  }

  function T2(i: nat): word {
    if i == 32 then 0xfffa3942 else if i == 33 then 0x8771f681 else if i == 34 then 0x6d9d6122 else if i == 35 then 0xfde5380c
    else if i == 36 then 0xa4beea44 else if i == 37 then 0x4bdecfa9 else if i == 38 then 0xf6bb4b60 else if i == 39 then 0xbebfbc70
    else if i == 40 then 0x289b7ec6 else if i == 41 then 0xeaa127fa else if i == 42 then 0xd4ef3085 else if i == 43 then 0x04881d05
    else if i == 44 then 0xd9d4d039 else if i == 45 then 0xe6db99e5 else if i == 46 then 0x1fa27cf8 else 0xc4ac5665
  }

  function T3(i: nat): word {
    if i == 48 then 0xf4292244 else if i == 49 then 0x432aff97 else if i == 50 then 0xab9423a7 else if i == 51 then 0xfc93a039
    else if i == 52 then 0x655b59c3 else if i == 53 then 0x8f0ccc92 else if i == 54 then 0xffeff47d else if i == 55 then 0x85845dd1
    else if i == 56 then 0x6fa87e4f else if i == 57 then 0xfe2ce6e0 else if i == 58 then 0xa3014314 else if i == 59 then 0x4e0811a1
    else if i == 60 then 0xf7537e82 else if i == 61 then 0xbd3af235 else if i == 62 then 0x2ad7d2bb else 0xeb86d391
  }

  function Sum(a: word, f: word, k: word, t: word): word {
    a + f + k + t
  }

  function Plus(a: word, b: word): word {
    a + b
  }

  /** What a step makes of its first register: b + ((a + f + k + t) <<< s). */
  function Turn(a: word, b: word, f: word, k: word, t: word, s: nat): word
    requires s <= 32
  {
    Plus(b, Rotate(Sum(a, f, k, t), s))
  }

  /** Step `i`: [abcd k s i] on registers that rotate one place after every step. */
  function Step(r: Registers, x: seq<word>, i: nat): Registers
    requires |x| == 16
  {
    Registers(r.d, Turn(r.a, r.b, Mix(i / 16, r.b, r.c, r.d), x[Pick(i)], T(i), Shift(i)), r.b, r.c)
  }

  function Steps(r: Registers, x: seq<word>, n: nat): Registers
    requires |x| == 16
  {
    if n == 0 then r else Step(Steps(r, x, n - 1), x, n - 1)
  }

  function Compress(r: Registers, x: seq<word>): Registers
    requires |x| == 16
  {
    var after := Steps(r, x, 64);
    Registers(Plus(r.a, after.a), Plus(r.b, after.b), Plus(r.c, after.c), Plus(r.d, after.d))
  }

  /** Four bytes as a word, low-order byte first. */
  function Word(b0: byte, b1: byte, b2: byte, b3: byte): word {
    (b0 as word) | ((b1 as word) << 8) | ((b2 as word) << 16) | ((b3 as word) << 24)
  }

  function Words(s: seq<byte>): (x: seq<word>)
    requires |s| % 4 == 0
    ensures |x| == |s| / 4
    ensures forall i :: 0 <= i < |x| ==> x[i] == Word(s[4 * i], s[4 * i + 1], s[4 * i + 2], s[4 * i + 3])
  {
    if s == [] then [] else
      var x := Words(s[..|s| - 4]);
      x + [Word(s[|s| - 4], s[|s| - 3], s[|s| - 2], s[|s| - 1])]
  }

  function WordBytes(w: word): seq<byte> {
    [(w & 0xff) as byte, ((w >> 8) & 0xff) as byte, ((w >> 16) & 0xff) as byte, ((w >> 24) & 0xff) as byte]
  }

  function Output(r: Registers): (s: seq<byte>)
    ensures |s| == 16
  {
    WordBytes(r.a) + WordBytes(r.b) + WordBytes(r.c) + WordBytes(r.d)
  }

  function Absorb(r: Registers, s: seq<byte>): Registers
    requires |s| % 64 == 0
    decreases |s|
  {
    if s == [] then r else Absorb(Compress(r, Words(s[..64])), s[64..])
  }

  /** A number below 2^32 as four bytes, low-order byte first. */
  function LittleEndian32(n: nat): (s: seq<byte>)
    ensures |s| == 4
  {
    [ByteOf(n % 256), ByteOf(n / 256 % 256), ByteOf(n / 0x1_0000 % 256), ByteOf(n / 0x100_0000 % 256)]
  }

  const TWO_32: nat := 0x1_0000_0000
  const TWO_64: nat := 0x1_0000_0000_0000_0000

  /** A one bit, zeros up to 56 bytes modulo 64, and the 64 low-order bits of the
      length in bits, low-order word first (sections 3.1 and 3.2 of RFC 1321). */
  function Padding(n: nat): (s: seq<byte>)
    ensures (n + |s|) % 64 == 0
  {
    [0x80] + Zeros(Gap(n)) + LengthBytes(n)
  }

  /** The length in bits, modulo 2^64. */
  function Bits(n: nat): nat {
    8 * n % TWO_64
  }

  function LengthBytes(n: nat): (s: seq<byte>)
    ensures |s| == 8
  {
    LittleEndian32(Bits(n) % TWO_32) + LittleEndian32(Bits(n) / TWO_32)
  }

  function Digest(message: seq<byte>): (s: seq<byte>)
    ensures |s| == 16
  {
    Output(Absorb(INITIAL, message + Padding(|message|)))
  }

  lemma {:induction false} AbsorbAppend(r: Registers, a: seq<byte>, b: seq<byte>)
    requires |a| % 64 == 0 && |b| % 64 == 0
    ensures Absorb(r, a + b) == Absorb(Absorb(r, a), b)
    decreases |a|
  {
    if a == [] {
      assert a + b == b;
    } else {
      assert (a + b)[..64] == a[..64] && (a + b)[64..] == a[64..] + b;
      AbsorbAppend(Compress(r, Words(a[..64])), a[64..], b);
    }
  }

  lemma AbsorbBlock(r: Registers, s: seq<byte>)
    requires |s| == 64
    ensures Absorb(r, s) == Compress(r, Words(s))
  {
    assert s[..64] == s && s[64..] == [];
  }
}

module Md5 {
  import opened Blocks
  import opened Bytes
  import opened Md5Spec

  // The step macros

  lemma ChooseOptimised(x: word, y: word, z: word)
    ensures z ^ (x & (y ^ z)) == (x & y) | (!x & z)
  {
  }

  lemma ChooseSwapped(x: word, y: word, z: word)
    ensures (z & x) | (!z & y) == (x & z) | (y & !z)
  {
  }

  lemma SumRegrouped(w: word, f: word, data: word, t: word)
    ensures w + (f + (data + t)) == Sum(w, f, data, t)
  {
  }

  lemma SumSwapped(a: word, b: word)
    ensures b + a == Plus(a, b)
  {
  }

  /** The first auxiliary function, with one operation fewer than the RFC's. */
  function F1(x: word, y: word, z: word): (r: word)
    ensures r == F(x, y, z)
  {
    ChooseOptimised(x, y, z);
    z ^ (x & (y ^ z))
  }

  function F2(x: word, y: word, z: word): (r: word)
    ensures r == G(x, y, z)
  {
    ChooseSwapped(x, y, z);
    F1(z, x, y)
  }

  function F3(x: word, y: word, z: word): (r: word)
    ensures r == H(x, y, z)
  {
    x ^ y ^ z
  }

  function F4(x: word, y: word, z: word): (r: word)
    ensures r == I(x, y, z)
  {
    y ^ (x | !z)
  }

  /** w += f + data, w rotated left by s, w += x. */
  function Md5Step(f: word, w: word, x: word, data: word, t: word, s: nat): (r: word)
    requires s <= 32
    ensures r == Turn(w, x, f, data, t, s)
  {
    hide Rotate, Sum, Plus;
    SumRegrouped(w, f, data, t);
    var added := w + (f + (data + t));
    SumSwapped(x, Rotate(added, s));
    Rotate(added, s) + x
  }

  lemma Advance(r: Registers, x: seq<word>, n: nat, a: word, b: word, c: word, d: word)
    requires |x| == 16 && Steps(r, x, n) == Registers(a, b, c, d)
    ensures Steps(r, x, n + 1) == Registers(d, Turn(a, b, Mix(n / 16, b, c, d), x[Pick(n)], T(n), Shift(n)), b, c)
  {
  }

  lemma TableOne()
    ensures Pick(0) == 0 && T(0) == 0xd76aa478 && Shift(0) == 7
    ensures Pick(1) == 1 && T(1) == 0xe8c7b756 && Shift(1) == 12
    ensures Pick(2) == 2 && T(2) == 0x242070db && Shift(2) == 17
    ensures Pick(3) == 3 && T(3) == 0xc1bdceee && Shift(3) == 22
    ensures Pick(4) == 4 && T(4) == 0xf57c0faf && Shift(4) == 7
    ensures Pick(5) == 5 && T(5) == 0x4787c62a && Shift(5) == 12
    ensures Pick(6) == 6 && T(6) == 0xa8304613 && Shift(6) == 17
    ensures Pick(7) == 7 && T(7) == 0xfd469501 && Shift(7) == 22
    ensures Pick(8) == 8 && T(8) == 0x698098d8 && Shift(8) == 7
    ensures Pick(9) == 9 && T(9) == 0x8b44f7af && Shift(9) == 12
    ensures Pick(10) == 10 && T(10) == 0xffff5bb1 && Shift(10) == 17
    ensures Pick(11) == 11 && T(11) == 0x895cd7be && Shift(11) == 22
    ensures Pick(12) == 12 && T(12) == 0x6b901122 && Shift(12) == 7
    ensures Pick(13) == 13 && T(13) == 0xfd987193 && Shift(13) == 12
    ensures Pick(14) == 14 && T(14) == 0xa679438e && Shift(14) == 17
    ensures Pick(15) == 15 && T(15) == 0x49b40821 && Shift(15) == 22
  {
    hide T1, T2, T3;
  }

  method RoundOne(ghost r: Registers, x: seq<word>, a0: word, b0: word, c0: word, d0: word)
    returns (a: word, b: word, c: word, d: word)
    requires |x| == 16
    requires Registers(a0, b0, c0, d0) == Steps(r, x, 0)
    ensures Registers(a, b, c, d) == Steps(r, x, 16)
  {
    hide F, G, H, I, F1, F2, F3, F4, Md5Step, Turn, T, Pick, Shift, Steps;
    TableOne();
    a, b, c, d := a0, b0, c0, d0;
    Advance(r, x, 0, a, b, c, d);
    a := Md5Step(F1(b, c, d), a, b, x[0], 0xd76aa478, 7);
    Advance(r, x, 1, d, a, b, c);
    d := Md5Step(F1(a, b, c), d, a, x[1], 0xe8c7b756, 12);
    Advance(r, x, 2, c, d, a, b);
    c := Md5Step(F1(d, a, b), c, d, x[2], 0x242070db, 17);
    Advance(r, x, 3, b, c, d, a);
    b := Md5Step(F1(c, d, a), b, c, x[3], 0xc1bdceee, 22);
    Advance(r, x, 4, a, b, c, d);
    a := Md5Step(F1(b, c, d), a, b, x[4], 0xf57c0faf, 7);
    Advance(r, x, 5, d, a, b, c);
    d := Md5Step(F1(a, b, c), d, a, x[5], 0x4787c62a, 12);
    Advance(r, x, 6, c, d, a, b);
    c := Md5Step(F1(d, a, b), c, d, x[6], 0xa8304613, 17);
    Advance(r, x, 7, b, c, d, a);
    b := Md5Step(F1(c, d, a), b, c, x[7], 0xfd469501, 22);
    Advance(r, x, 8, a, b, c, d);
    a := Md5Step(F1(b, c, d), a, b, x[8], 0x698098d8, 7);
    Advance(r, x, 9, d, a, b, c);
    d := Md5Step(F1(a, b, c), d, a, x[9], 0x8b44f7af, 12);
    Advance(r, x, 10, c, d, a, b);
    c := Md5Step(F1(d, a, b), c, d, x[10], 0xffff5bb1, 17);
    Advance(r, x, 11, b, c, d, a);
    b := Md5Step(F1(c, d, a), b, c, x[11], 0x895cd7be, 22);
    Advance(r, x, 12, a, b, c, d);
    a := Md5Step(F1(b, c, d), a, b, x[12], 0x6b901122, 7);
    Advance(r, x, 13, d, a, b, c);
    d := Md5Step(F1(a, b, c), d, a, x[13], 0xfd987193, 12);
    Advance(r, x, 14, c, d, a, b);
    c := Md5Step(F1(d, a, b), c, d, x[14], 0xa679438e, 17);
    Advance(r, x, 15, b, c, d, a);
    b := Md5Step(F1(c, d, a), b, c, x[15], 0x49b40821, 22);
  }

  lemma TableTwo()
    ensures Pick(16) == 1 && T(16) == 0xf61e2562 && Shift(16) == 5
    ensures Pick(17) == 6 && T(17) == 0xc040b340 && Shift(17) == 9
    ensures Pick(18) == 11 && T(18) == 0x265e5a51 && Shift(18) == 14
    ensures Pick(19) == 0 && T(19) == 0xe9b6c7aa && Shift(19) == 20
    ensures Pick(20) == 5 && T(20) == 0xd62f105d && Shift(20) == 5
    ensures Pick(21) == 10 && T(21) == 0x02441453 && Shift(21) == 9
    ensures Pick(22) == 15 && T(22) == 0xd8a1e681 && Shift(22) == 14
    ensures Pick(23) == 4 && T(23) == 0xe7d3fbc8 && Shift(23) == 20
    ensures Pick(24) == 9 && T(24) == 0x21e1cde6 && Shift(24) == 5
    ensures Pick(25) == 14 && T(25) == 0xc33707d6 && Shift(25) == 9
    ensures Pick(26) == 3 && T(26) == 0xf4d50d87 && Shift(26) == 14
    ensures Pick(27) == 8 && T(27) == 0x455a14ed && Shift(27) == 20
    ensures Pick(28) == 13 && T(28) == 0xa9e3e905 && Shift(28) == 5
    ensures Pick(29) == 2 && T(29) == 0xfcefa3f8 && Shift(29) == 9
    ensures Pick(30) == 7 && T(30) == 0x676f02d9 && Shift(30) == 14
    ensures Pick(31) == 12 && T(31) == 0x8d2a4c8a && Shift(31) == 20
  {
    hide T0, T2, T3;
  }

  method RoundTwo(ghost r: Registers, x: seq<word>, a0: word, b0: word, c0: word, d0: word)
    returns (a: word, b: word, c: word, d: word)
    requires |x| == 16
    requires Registers(a0, b0, c0, d0) == Steps(r, x, 16)
    ensures Registers(a, b, c, d) == Steps(r, x, 32)
  {
    hide F, G, H, I, F1, F2, F3, F4, Md5Step, Turn, T, Pick, Shift, Steps;
    TableTwo();
    a, b, c, d := a0, b0, c0, d0;
    Advance(r, x, 16, a, b, c, d);
    a := Md5Step(F2(b, c, d), a, b, x[1], 0xf61e2562, 5);
    Advance(r, x, 17, d, a, b, c);
    d := Md5Step(F2(a, b, c), d, a, x[6], 0xc040b340, 9);
    Advance(r, x, 18, c, d, a, b);
    c := Md5Step(F2(d, a, b), c, d, x[11], 0x265e5a51, 14);
    Advance(r, x, 19, b, c, d, a);
    b := Md5Step(F2(c, d, a), b, c, x[0], 0xe9b6c7aa, 20);
    Advance(r, x, 20, a, b, c, d);
    a := Md5Step(F2(b, c, d), a, b, x[5], 0xd62f105d, 5);
    Advance(r, x, 21, d, a, b, c);
    d := Md5Step(F2(a, b, c), d, a, x[10], 0x02441453, 9);
    Advance(r, x, 22, c, d, a, b);
    c := Md5Step(F2(d, a, b), c, d, x[15], 0xd8a1e681, 14);
    Advance(r, x, 23, b, c, d, a);
    b := Md5Step(F2(c, d, a), b, c, x[4], 0xe7d3fbc8, 20);
    Advance(r, x, 24, a, b, c, d);
    a := Md5Step(F2(b, c, d), a, b, x[9], 0x21e1cde6, 5);
    Advance(r, x, 25, d, a, b, c);
    d := Md5Step(F2(a, b, c), d, a, x[14], 0xc33707d6, 9);
    Advance(r, x, 26, c, d, a, b);
    c := Md5Step(F2(d, a, b), c, d, x[3], 0xf4d50d87, 14);
    Advance(r, x, 27, b, c, d, a);
    b := Md5Step(F2(c, d, a), b, c, x[8], 0x455a14ed, 20);
    Advance(r, x, 28, a, b, c, d);
    a := Md5Step(F2(b, c, d), a, b, x[13], 0xa9e3e905, 5);
    Advance(r, x, 29, d, a, b, c);
    d := Md5Step(F2(a, b, c), d, a, x[2], 0xfcefa3f8, 9);
    Advance(r, x, 30, c, d, a, b);
    c := Md5Step(F2(d, a, b), c, d, x[7], 0x676f02d9, 14);
    Advance(r, x, 31, b, c, d, a);
    b := Md5Step(F2(c, d, a), b, c, x[12], 0x8d2a4c8a, 20);
  }

  lemma TableThree()
    ensures Pick(32) == 5 && T(32) == 0xfffa3942 && Shift(32) == 4
    ensures Pick(33) == 8 && T(33) == 0x8771f681 && Shift(33) == 11
    ensures Pick(34) == 11 && T(34) == 0x6d9d6122 && Shift(34) == 16
    ensures Pick(35) == 14 && T(35) == 0xfde5380c && Shift(35) == 23
    ensures Pick(36) == 1 && T(36) == 0xa4beea44 && Shift(36) == 4
    ensures Pick(37) == 4 && T(37) == 0x4bdecfa9 && Shift(37) == 11
    ensures Pick(38) == 7 && T(38) == 0xf6bb4b60 && Shift(38) == 16
    ensures Pick(39) == 10 && T(39) == 0xbebfbc70 && Shift(39) == 23
    ensures Pick(40) == 13 && T(40) == 0x289b7ec6 && Shift(40) == 4
    ensures Pick(41) == 0 && T(41) == 0xeaa127fa && Shift(41) == 11
    ensures Pick(42) == 3 && T(42) == 0xd4ef3085 && Shift(42) == 16
    ensures Pick(43) == 6 && T(43) == 0x04881d05 && Shift(43) == 23
    ensures Pick(44) == 9 && T(44) == 0xd9d4d039 && Shift(44) == 4
    ensures Pick(45) == 12 && T(45) == 0xe6db99e5 && Shift(45) == 11
    ensures Pick(46) == 15 && T(46) == 0x1fa27cf8 && Shift(46) == 16
    ensures Pick(47) == 2 && T(47) == 0xc4ac5665 && Shift(47) == 23
  {
    hide T0, T1, T3;
  }

  method RoundThree(ghost r: Registers, x: seq<word>, a0: word, b0: word, c0: word, d0: word)
    returns (a: word, b: word, c: word, d: word)
    requires |x| == 16
    requires Registers(a0, b0, c0, d0) == Steps(r, x, 32)
    ensures Registers(a, b, c, d) == Steps(r, x, 48)
  {
    hide F, G, H, I, F1, F2, F3, F4, Md5Step, Turn, T, Pick, Shift, Steps;
    TableThree();
    a, b, c, d := a0, b0, c0, d0;
    Advance(r, x, 32, a, b, c, d);
    a := Md5Step(F3(b, c, d), a, b, x[5], 0xfffa3942, 4);
    Advance(r, x, 33, d, a, b, c);
    d := Md5Step(F3(a, b, c), d, a, x[8], 0x8771f681, 11);
    Advance(r, x, 34, c, d, a, b);
    c := Md5Step(F3(d, a, b), c, d, x[11], 0x6d9d6122, 16);
    Advance(r, x, 35, b, c, d, a);
    b := Md5Step(F3(c, d, a), b, c, x[14], 0xfde5380c, 23);
    Advance(r, x, 36, a, b, c, d);
    a := Md5Step(F3(b, c, d), a, b, x[1], 0xa4beea44, 4);
    Advance(r, x, 37, d, a, b, c);
    d := Md5Step(F3(a, b, c), d, a, x[4], 0x4bdecfa9, 11);
    Advance(r, x, 38, c, d, a, b);
    c := Md5Step(F3(d, a, b), c, d, x[7], 0xf6bb4b60, 16);
    Advance(r, x, 39, b, c, d, a);
    b := Md5Step(F3(c, d, a), b, c, x[10], 0xbebfbc70, 23);
    Advance(r, x, 40, a, b, c, d);
    a := Md5Step(F3(b, c, d), a, b, x[13], 0x289b7ec6, 4);
    Advance(r, x, 41, d, a, b, c);
    d := Md5Step(F3(a, b, c), d, a, x[0], 0xeaa127fa, 11);
    Advance(r, x, 42, c, d, a, b);
    c := Md5Step(F3(d, a, b), c, d, x[3], 0xd4ef3085, 16);
    Advance(r, x, 43, b, c, d, a);
    b := Md5Step(F3(c, d, a), b, c, x[6], 0x04881d05, 23);
    Advance(r, x, 44, a, b, c, d);
    a := Md5Step(F3(b, c, d), a, b, x[9], 0xd9d4d039, 4);
    Advance(r, x, 45, d, a, b, c);
    d := Md5Step(F3(a, b, c), d, a, x[12], 0xe6db99e5, 11);
    Advance(r, x, 46, c, d, a, b);
    c := Md5Step(F3(d, a, b), c, d, x[15], 0x1fa27cf8, 16);
    Advance(r, x, 47, b, c, d, a);
    b := Md5Step(F3(c, d, a), b, c, x[2], 0xc4ac5665, 23);
  }

  lemma TableFour()
    ensures Pick(48) == 0 && T(48) == 0xf4292244 && Shift(48) == 6
    ensures Pick(49) == 7 && T(49) == 0x432aff97 && Shift(49) == 10
    ensures Pick(50) == 14 && T(50) == 0xab9423a7 && Shift(50) == 15
    ensures Pick(51) == 5 && T(51) == 0xfc93a039 && Shift(51) == 21
    ensures Pick(52) == 12 && T(52) == 0x655b59c3 && Shift(52) == 6
    ensures Pick(53) == 3 && T(53) == 0x8f0ccc92 && Shift(53) == 10
    ensures Pick(54) == 10 && T(54) == 0xffeff47d && Shift(54) == 15
    ensures Pick(55) == 1 && T(55) == 0x85845dd1 && Shift(55) == 21
    ensures Pick(56) == 8 && T(56) == 0x6fa87e4f && Shift(56) == 6
    ensures Pick(57) == 15 && T(57) == 0xfe2ce6e0 && Shift(57) == 10
    ensures Pick(58) == 6 && T(58) == 0xa3014314 && Shift(58) == 15
    ensures Pick(59) == 13 && T(59) == 0x4e0811a1 && Shift(59) == 21
    ensures Pick(60) == 4 && T(60) == 0xf7537e82 && Shift(60) == 6
    ensures Pick(61) == 11 && T(61) == 0xbd3af235 && Shift(61) == 10
    ensures Pick(62) == 2 && T(62) == 0x2ad7d2bb && Shift(62) == 15
    ensures Pick(63) == 9 && T(63) == 0xeb86d391 && Shift(63) == 21
  {
    hide T0, T1, T2;
  }

  method RoundFour(ghost r: Registers, x: seq<word>, a0: word, b0: word, c0: word, d0: word)
    returns (a: word, b: word, c: word, d: word)
    requires |x| == 16
    requires Registers(a0, b0, c0, d0) == Steps(r, x, 48)
    ensures Registers(a, b, c, d) == Steps(r, x, 64)
  {
    hide F, G, H, I, F1, F2, F3, F4, Md5Step, Turn, T, Pick, Shift, Steps;
    TableFour();
    a, b, c, d := a0, b0, c0, d0;
    Advance(r, x, 48, a, b, c, d);
    a := Md5Step(F4(b, c, d), a, b, x[0], 0xf4292244, 6);
    Advance(r, x, 49, d, a, b, c);
    d := Md5Step(F4(a, b, c), d, a, x[7], 0x432aff97, 10);
    Advance(r, x, 50, c, d, a, b);
    c := Md5Step(F4(d, a, b), c, d, x[14], 0xab9423a7, 15);
    Advance(r, x, 51, b, c, d, a);
    b := Md5Step(F4(c, d, a), b, c, x[5], 0xfc93a039, 21);
    Advance(r, x, 52, a, b, c, d);
    a := Md5Step(F4(b, c, d), a, b, x[12], 0x655b59c3, 6);
    Advance(r, x, 53, d, a, b, c);
    d := Md5Step(F4(a, b, c), d, a, x[3], 0x8f0ccc92, 10);
    Advance(r, x, 54, c, d, a, b);
    c := Md5Step(F4(d, a, b), c, d, x[10], 0xffeff47d, 15);
    Advance(r, x, 55, b, c, d, a);
    b := Md5Step(F4(c, d, a), b, c, x[1], 0x85845dd1, 21);
    Advance(r, x, 56, a, b, c, d);
    a := Md5Step(F4(b, c, d), a, b, x[8], 0x6fa87e4f, 6);
    Advance(r, x, 57, d, a, b, c);
    d := Md5Step(F4(a, b, c), d, a, x[15], 0xfe2ce6e0, 10);
    Advance(r, x, 58, c, d, a, b);
    c := Md5Step(F4(d, a, b), c, d, x[6], 0xa3014314, 15);
    Advance(r, x, 59, b, c, d, a);
    b := Md5Step(F4(c, d, a), b, c, x[13], 0x4e0811a1, 21);
    Advance(r, x, 60, a, b, c, d);
    a := Md5Step(F4(b, c, d), a, b, x[4], 0xf7537e82, 6);
    Advance(r, x, 61, d, a, b, c);
    d := Md5Step(F4(a, b, c), d, a, x[11], 0xbd3af235, 10);
    Advance(r, x, 62, c, d, a, b);
    c := Md5Step(F4(d, a, b), c, d, x[2], 0x2ad7d2bb, 15);
    Advance(r, x, 63, b, c, d, a);
    b := Md5Step(F4(c, d, a), b, c, x[9], 0xeb86d391, 21);
  }

  lemma StartOfSteps(r: Registers, x: seq<word>)
    requires |x| == 16
    ensures Steps(r, x, 0) == r
  {
  }

  /** The core: absorbs one block of sixteen words. */
  method MD5Transform(buf: array<word>, x: seq<word>)
    requires buf.Length == 4 && |x| == 16
    modifies buf
    ensures State(buf) == Compress(old(State(buf)), x)
  {
    hide Steps, Plus;
    StartOfSteps(State(buf), x);
    ghost var r := State(buf);
    var a, b, c, d := buf[0], buf[1], buf[2], buf[3];
    a, b, c, d := RoundOne(r, x, a, b, c, d);
    a, b, c, d := RoundTwo(r, x, a, b, c, d);
    a, b, c, d := RoundThree(r, x, a, b, c, d);
    a, b, c, d := RoundFour(r, x, a, b, c, d);
    buf[0] := Plus(buf[0], a);
    buf[1] := Plus(buf[1], b);
    buf[2] := Plus(buf[2], c);
    buf[3] := Plus(buf[3], d);
  }

  function State(buf: array<word>): Registers
    requires buf.Length == 4
    reads buf
  {
    Registers(buf[0], buf[1], buf[2], buf[3])
  }

  lemma NoWords()
    ensures Words([]) == []
  {
  }

  lemma OneMoreWord(s: seq<byte>, b: seq<byte>)
    requires |s| % 4 == 0 && |b| == 4
    ensures Words(s + b) == Words(s) + [Word(b[0], b[1], b[2], b[3])]
  {
    hide Word;
    assert (s + b)[..|s + b| - 4] == s;
  }

  /** The first `longs` words of a buffer, low-order byte first. */
  method ByteReverse(input: array<byte>, longs: nat) returns (x: seq<word>)
    requires 4 * longs <= input.Length
    ensures x == Words(input[..4 * longs])
  {
    hide Word, Words;
    NoWords();
    x := [];
    var i := 0;
    while i < longs
      invariant 0 <= i <= longs && x == Words(input[..4 * i])
    {
      assert input[..4 * (i + 1)] == input[..4 * i] + input[4 * i..4 * i + 4];
      OneMoreWord(input[..4 * i], input[4 * i..4 * i + 4]);
      x := x + [Word(input[4 * i], input[4 * i + 1], input[4 * i + 2], input[4 * i + 3])];
      i := i + 1;
    }
  }

  method Copy(target: array<byte>, at: nat, data: seq<byte>)
    requires at + |data| <= target.Length
    modifies target
    ensures target[..] == old(target[..at]) + data + old(target[at + |data|..])
  {
    var i := 0;
    while i < |data|
      invariant 0 <= i <= |data|
      invariant forall k :: 0 <= k < target.Length ==>
                  target[k] == if at <= k < at + i then data[k - at] else old(target[k])
    {
      target[at + i] := data[i];
      i := i + 1;
    }
  }

  // -------------------------------------------------------------------------
  // Counting the bits

  /** The number of bits fed is kept as two 32-bit words with a carry between them. */
  lemma BitsAdvance(lo: nat, hi: nat, n: nat, len: nat)
    requires lo < TWO_32 && hi < TWO_32 && lo + TWO_32 * hi == Bits(n)
    ensures var low := (lo + len % TWO_32 * 8 % TWO_32) % TWO_32;
            var carried := if low < lo then (hi + 1) % TWO_32 else hi;
            var high := (carried + len / 0x2000_0000) % TWO_32;
            low < TWO_32 && high < TWO_32 && low + TWO_32 * high == Bits(n + len)
  {
    ShiftedLength(len);
    var part, up := len % 0x2000_0000 * 8, len / 0x2000_0000;
    var low := (lo + part) % TWO_32;
    var carry := if low < lo then 1 else 0;
    assert lo + part == low + TWO_32 * carry;
    var carried := if low < lo then (hi + 1) % TWO_32 else hi;
    assert carried == (hi + carry) % TWO_32;
    var high := (carried + up) % TWO_32;
    var first, second := (hi + carry) / TWO_32, (carried + up) / TWO_32;
    assert high == hi + carry + up - TWO_32 * (first + second);
    var turns := 8 * n / TWO_64;
    assert 8 * n == lo + TWO_32 * hi + TWO_64 * turns;
    QuotientUnique(8 * (n + len), TWO_64, first + second + turns, low + TWO_32 * high);
  }

  lemma ShiftedLength(len: nat)
    ensures len % TWO_32 * 8 % TWO_32 == len % 0x2000_0000 * 8
    ensures 8 * len == len % 0x2000_0000 * 8 + TWO_32 * (len / 0x2000_0000)
  {
    var low, high := len % 0x2000_0000, len / 0x2000_0000;
    var quarter, rest := high % 8, high / 8;
    assert len == low + 0x2000_0000 * quarter + TWO_32 * rest;
    QuotientUnique(len, TWO_32, rest, low + 0x2000_0000 * quarter);
    QuotientUnique((low + 0x2000_0000 * quarter) * 8, TWO_32, quarter, low * 8);
  }

  /** The low word alone tells how far the buffer is filled. */
  lemma FillLevel(lo: nat, hi: nat, n: nat)
    requires lo < TWO_32 && lo + TWO_32 * hi == Bits(n)
    ensures lo / 8 % 64 == n % 64
  {
    var turns := 8 * n / TWO_64;
    var blocks := hi + TWO_32 * turns;
    assert 8 * n == lo + TWO_32 * blocks;
    var bytes := n - 0x2000_0000 * blocks;
    assert lo == 8 * bytes;
    QuotientUnique(n, 64, bytes / 64 + 0x80_0000 * blocks, bytes % 64);
  }

  lemma AbsorbOneMore(done: seq<byte>, block: seq<byte>)
    requires |done| % 64 == 0 && |block| == 64
    ensures Absorb(INITIAL, done + block) == Compress(Absorb(INITIAL, done), Words(block))
  {
    AbsorbAppend(INITIAL, done, block);
    AbsorbBlock(Absorb(INITIAL, done), block);
  }

  // -------------------------------------------------------------------------
  // The context

  function Word32(n: nat): word {
    var s := LittleEndian32(n);
    Word(s[0], s[1], s[2], s[3])
  }

  lemma NothingFed()
    ensures Absorb(INITIAL, Whole([])) == INITIAL && Rest([]) == []
  {
  }

  class MD5Context {
    const buf: array<word>
    const input: array<byte>
    var lo: nat
    var hi: nat

    /** Everything fed so far. */
    ghost var fed: seq<byte>

    ghost predicate Valid()
      reads this, buf, input
    {
      && buf.Length == 4 && input.Length == 64
      && Counted(|fed|)
      && State(buf) == Absorb(INITIAL, Whole(fed))
      && input[..|fed| % 64] == Rest(fed)
    }

    /** The two words hold the number of bits modulo 2^64. */
    ghost predicate Counted(n: nat)
      reads `lo, `hi
    {
      lo < TWO_32 && hi < TWO_32 && lo + TWO_32 * hi == Bits(n)
    }

    constructor ()
      ensures Valid() && fed == [] && fresh(buf) && fresh(input)
    {
      hide Absorb, Whole, Rest;
      NothingFed();
      buf := new word[] [0x67452301, 0xefcdab89, 0x98badcfe, 0x10325476];
      input := new byte[64];
      lo, hi, fed := 0, 0, [];
    }

    method Flush()
      requires buf.Length == 4 && input.Length == 64
      modifies buf
      ensures State(buf) == Compress(old(State(buf)), Words(input[..]))
    {
      hide Compress, Words;
      var x := ByteReverse(input, 16);
      assert input[..64] == input[..];
      MD5Transform(buf, x);
    }

    /** Absorbs whole blocks straight from the data and keeps what is left over. */
    method FeedBlocks(data: seq<byte>, ghost before: seq<byte>)
      requires buf.Length == 4 && input.Length == 64
      requires |before| % 64 == 0 && State(buf) == Absorb(INITIAL, before)
      modifies buf, input
      ensures State(buf) == Absorb(INITIAL, Whole(before + data))
      ensures input[..|before + data| % 64] == Rest(before + data)
    {
      hide Absorb, Compress, Words, Whole, Rest;
      ghost var done := before;
      var rest := data;
      while |rest| >= 64
        invariant |done| % 64 == 0 && done + rest == before + data
        invariant State(buf) == Absorb(INITIAL, done)
      {
        Copy(input, 0, rest[..64]);
        assert input[..] == rest[..64];
        AbsorbOneMore(done, rest[..64]);
        Flush();
        done := done + rest[..64];
        rest := rest[64..];
      }
      Copy(input, 0, rest);
      WholeAndRest(done, rest);
      assert |before + data| % 64 == |rest|;
    }

    /** Counts `len` more bytes and says how many are waiting in the buffer. */
    method Count(len: nat, ghost n: nat) returns (t: nat)
      requires Counted(n)
      modifies `lo, `hi
      ensures Counted(n + len) && t == n % 64
    {
      BitsAdvance(lo, hi, n, len);
      FillLevel(lo, hi, n);
      t := lo;
      lo := (t + len % TWO_32 * 8 % TWO_32) % TWO_32;
      if lo < t {
        hi := (hi + 1) % TWO_32;
      }
      hi := (hi + len / 0x2000_0000) % TWO_32;
      t := t / 8 % 64;
    }

    /** Feeds more data. */
    method Update(data: seq<byte>)
      requires Valid()
      modifies this, buf, input
      ensures Valid() && fed == old(fed) + data
    {
      hide Absorb, Compress, Words, Counted, Whole, Rest;
      var t := Count(|data|, |fed|);
      Split(fed);
      if t != 0 {
        var space := 64 - t;
        if |data| < space {
          StillRest(fed, data);
          Copy(input, t, data);
          assert input[..t] == Rest(fed);
        } else {
          TopUp(data, t);
        }
      } else {
        FeedBlocks(data, fed);
      }
      fed := fed + data;
    }

    /** Completes the block in the buffer and goes on with what follows. */
    method TopUp(data: seq<byte>, t: nat)
      requires buf.Length == 4 && input.Length == 64 && State(buf) == Absorb(INITIAL, Whole(fed))
      requires 0 < t == |fed| % 64 && |data| >= 64 - t && input[..t] == Rest(fed)
      modifies buf, input
      ensures State(buf) == Absorb(INITIAL, Whole(fed + data))
      ensures input[..|fed + data| % 64] == Rest(fed + data)
    {
      hide Absorb, Compress, Words, Whole, Rest;
      Split(fed);
      var space := 64 - t;
      Copy(input, t, data[..space]);
      assert input[..] == Rest(fed) + data[..space];
      AbsorbOneMore(Whole(fed), Rest(fed) + data[..space]);
      Flush();
      ghost var before := Whole(fed) + (Rest(fed) + data[..space]);
      Regroup(Whole(fed), Rest(fed), data, space);
      FeedBlocks(data[space..], before);
    }

    /** Fills the block with zeros, absorbs it and begins the next with zeros. */
    method FillBlock(at: nat)
      requires buf.Length == 4 && input.Length == 64 && at <= 64
      modifies buf, input
      ensures State(buf) == Compress(old(State(buf)), Words(old(input[..at]) + Zeros(64 - at)))
      ensures input[..56] == Zeros(56)
    {
      hide Compress, Words;
      Copy(input, at, Zeros(64 - at));
      assert input[..] == old(input[..at]) + Zeros(64 - at);
      Flush();
      Copy(input, 0, Zeros(56));
      assert input[..56] == Zeros(56);
    }

    /** Padding up to 56 bytes, with a block absorbed on the way if it has to be. */
    method Pad() returns (ghost done: seq<byte>)
      requires Valid()
      modifies buf, input
      ensures |done| % 64 == 0 && State(buf) == Absorb(INITIAL, done)
      ensures fed + Padding(|fed|) == done + (input[..56] + LengthBytes(|fed|))
    {
      hide Absorb, Compress, Words, Whole, Rest, Gap, LengthBytes, Bits;
      FillLevel(lo, hi, |fed|);
      Split(fed);
      done := Whole(fed);
      var count := lo / 8 % 64;
      input[count] := 0x80;
      var at := count + 1;
      count := 64 - 1 - count;
      assert input[..at] == Rest(fed) + [0x80];
      if count < 8 {
        ghost var first := Rest(fed) + [0x80] + Zeros(count);
        AbsorbOneMore(done, first);
        FillBlock(at);
        done := done + first;
      } else {
        Copy(input, at, Zeros(count - 8));
        assert input[..56] == Rest(fed) + [0x80] + Zeros(count - 8);
      }
      LastBlocks(fed, input[..56], LengthBytes(|fed|));
    }

    /** Pads, absorbs the last block with the length in it, and wipes the context. */
    method Final() returns (digest: seq<byte>)
      requires Valid()
      modifies this, buf, input
      ensures digest == Digest(old(fed))
      ensures lo == 0 && hi == 0 && State(buf) == Registers(0, 0, 0, 0) && input[..] == Zeros(64)
    {
      hide Absorb, Compress, Words, Whole, Rest, Output, Padding, LengthBytes, Bits, LittleEndian32, Word32;
      LengthWords(lo, hi, |fed|);
      ghost var done := Pad();
      LastWords(input[..56], lo, hi);
      AbsorbOneMore(done, input[..56] + (LittleEndian32(lo) + LittleEndian32(hi)));
      var x := ByteReverse(input, 14);
      x := x + [Word32(lo), Word32(hi)];
      MD5Transform(buf, x);
      digest := Output(State(buf));
      Wipe();
    }

    method Wipe()
      requires buf.Length == 4 && input.Length == 64
      modifies this, buf, input
      ensures lo == 0 && hi == 0 && State(buf) == Registers(0, 0, 0, 0) && input[..] == Zeros(64)
    {
      buf[0], buf[1], buf[2], buf[3] := 0, 0, 0, 0;
      lo, hi := 0, 0;
      Copy(input, 0, Zeros(64));
    }
  }

  lemma LengthWords(lo: nat, hi: nat, n: nat)
    requires lo < TWO_32 && lo + TWO_32 * hi == Bits(n)
    ensures LengthBytes(n) == LittleEndian32(lo) + LittleEndian32(hi)
  {
    hide Bits, LittleEndian32;
    QuotientUnique(Bits(n), TWO_32, hi, lo);
  }

  lemma LastWords(s: seq<byte>, lo: nat, hi: nat)
    requires |s| == 56
    ensures Words(s) + [Word32(lo), Word32(hi)] == Words(s + (LittleEndian32(lo) + LittleEndian32(hi)))
  {
    hide LittleEndian32, Word;
    var t := s + (LittleEndian32(lo) + LittleEndian32(hi));
    assert forall i :: 0 <= i < 56 ==> t[i] == s[i];
    assert forall i :: 0 <= i < 4 ==> t[56 + i] == LittleEndian32(lo)[i] && t[60 + i] == LittleEndian32(hi)[i];
  }

  // -------------------------------------------------------------------------
  // The whole computation

  /** However the data is cut up, the digest is that of all of it. */
  method DigestOfAll(parts: seq<seq<byte>>) returns (digest: seq<byte>)
    ensures digest == Digest(Concat(parts))
  {
    var context := new MD5Context();
    var i := 0;
    while i < |parts|
      invariant 0 <= i <= |parts| && context.Valid() && fresh(context) && fresh(context.buf) && fresh(context.input)
      invariant context.fed + Concat(parts[i..]) == Concat(parts)
    {
      Associate(context.fed, parts[i], Concat(parts[i + 1..]));
      assert parts[i..][1..] == parts[i + 1..];
      context.Update(parts[i]);
      i := i + 1;
    }
    assert context.fed == Concat(parts);
    digest := context.Final();
  }

  method MD5Sum(data: seq<byte>) returns (digest: seq<byte>)
    ensures digest == Digest(data)
  {
    var context := new MD5Context();
    context.Update(data);
    assert [] + data == data;
    digest := context.Final();
  }
}
