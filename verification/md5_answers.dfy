/** A worked example of MD5: the digest of "abc" (appendix A.5 of RFC 1321), step by step. */
module Md5Answers {
  import opened Blocks
  import opened Bytes
  import opened Md5Spec
  import opened Md5

  predicate IsAbc(x: seq<word>) {
    && |x| == 16 && x[0] == 0x80636261 && x[14] == 0x18
    && x[1] == 0 && x[2] == 0 && x[3] == 0 && x[4] == 0 && x[5] == 0 && x[6] == 0 && x[7] == 0
    && x[8] == 0 && x[9] == 0 && x[10] == 0 && x[11] == 0 && x[12] == 0 && x[13] == 0 && x[15] == 0
  }

  lemma NextStep(r: Registers, x: seq<word>, n: nat, a: word, b: word, c: word, d: word, round: nat, k: nat, t: word, s: nat)
    requires |x| == 16 && Steps(r, x, n) == Registers(a, b, c, d)
    requires round == n / 16 && Pick(n) == k < 16 && T(n) == t && Shift(n) == s
    ensures Steps(r, x, n + 1) == Registers(d, Turn(a, b, Mix(round, b, c, d), x[k], t, s), b, c)
  {
    hide Turn, Mix, T, Shift, Pick;
  }

  lemma NoSteps(x: seq<word>)
    requires |x| == 16
    ensures Steps(INITIAL, x, 0) == INITIAL
  {
  }

  lemma Steps16(x: seq<word>)
    requires IsAbc(x)
    ensures Steps(INITIAL, x, 16) == Registers(0xdda9b9a6, 0x72aff2e0, 0xe396856b, 0xa1051895)
  {
    hide Steps, Pick, T, Shift;
    TableOne();
    NoSteps(x);
    NextStep(INITIAL, x, 0, 0x67452301, 0xefcdab89, 0x98badcfe, 0x10325476, 0, 0, 0xd76aa478, 7);
    NextStep(INITIAL, x, 1, 0x10325476, 0xd6d117b4, 0xefcdab89, 0x98badcfe, 0, 1, 0xe8c7b756, 12);
    NextStep(INITIAL, x, 2, 0x98badcfe, 0x344a8432, 0xd6d117b4, 0xefcdab89, 0, 2, 0x242070db, 17);
    NextStep(INITIAL, x, 3, 0xefcdab89, 0x2f6fbd72, 0x344a8432, 0xd6d117b4, 0, 3, 0xc1bdceee, 22);
    NextStep(INITIAL, x, 4, 0xd6d117b4, 0x7ad956f2, 0x2f6fbd72, 0x344a8432, 0, 4, 0xf57c0faf, 7);
    NextStep(INITIAL, x, 5, 0x344a8432, 0xc73741ef, 0x7ad956f2, 0x2f6fbd72, 0, 5, 0x4787c62a, 12);
    NextStep(INITIAL, x, 6, 0x2f6fbd72, 0x8bac3051, 0xc73741ef, 0x7ad956f2, 0, 6, 0xa8304613, 17);
    NextStep(INITIAL, x, 7, 0x7ad956f2, 0x207dc67b, 0x8bac3051, 0xc73741ef, 0, 7, 0xfd469501, 22);
    NextStep(INITIAL, x, 8, 0xc73741ef, 0x928d99f6, 0x207dc67b, 0x8bac3051, 0, 8, 0x698098d8, 7);
    NextStep(INITIAL, x, 9, 0x8bac3051, 0x854b3712, 0x928d99f6, 0x207dc67b, 0, 9, 0x8b44f7af, 12);
    NextStep(INITIAL, x, 10, 0x207dc67b, 0x74e2f284, 0x854b3712, 0x928d99f6, 0, 10, 0xffff5bb1, 17);
    NextStep(INITIAL, x, 11, 0x928d99f6, 0x3020401c, 0x74e2f284, 0x854b3712, 0, 11, 0x895cd7be, 22);
    NextStep(INITIAL, x, 12, 0x854b3712, 0x5ed49596, 0x3020401c, 0x74e2f284, 0, 12, 0x6b901122, 7);
    NextStep(INITIAL, x, 13, 0x74e2f284, 0xdda9b9a6, 0x5ed49596, 0x3020401c, 0, 13, 0xfd987193, 12);
    NextStep(INITIAL, x, 14, 0x3020401c, 0xa1051895, 0xdda9b9a6, 0x5ed49596, 0, 14, 0xa679438e, 17);
    NextStep(INITIAL, x, 15, 0x5ed49596, 0xe396856b, 0xa1051895, 0xdda9b9a6, 0, 15, 0x49b40821, 22);
  }

  lemma Steps32(x: seq<word>)
    requires IsAbc(x)
    ensures Steps(INITIAL, x, 32) == Registers(0x790a77fb, 0x726342d3, 0xa62884aa, 0x9f47e4f8)
  {
    hide Steps, Pick, T, Shift;
    TableTwo();
    Steps16(x);
    NextStep(INITIAL, x, 16, 0xdda9b9a6, 0x72aff2e0, 0xe396856b, 0xa1051895, 1, 1, 0xf61e2562, 5);
    NextStep(INITIAL, x, 17, 0xa1051895, 0x3e9e9126, 0x72aff2e0, 0xe396856b, 1, 6, 0xc040b340, 9);
    NextStep(INITIAL, x, 18, 0xe396856b, 0x4a1d804e, 0x3e9e9126, 0x72aff2e0, 1, 11, 0x265e5a51, 14);
    NextStep(INITIAL, x, 19, 0x72aff2e0, 0xe25e1652, 0x4a1d804e, 0x3e9e9126, 1, 0, 0xe9b6c7aa, 20);
    NextStep(INITIAL, x, 20, 0x3e9e9126, 0xb5b204e4, 0xe25e1652, 0x4a1d804e, 1, 5, 0xd62f105d, 5);
    NextStep(INITIAL, x, 21, 0x4a1d804e, 0x59a8ffda, 0xb5b204e4, 0xe25e1652, 1, 10, 0x02441453, 9);
    NextStep(INITIAL, x, 22, 0xe25e1652, 0x6d002f1e, 0x59a8ffda, 0xb5b204e4, 1, 15, 0xd8a1e681, 14);
    NextStep(INITIAL, x, 23, 0xb5b204e4, 0xabfc7920, 0x6d002f1e, 0x59a8ffda, 1, 4, 0xe7d3fbc8, 20);
    NextStep(INITIAL, x, 24, 0x59a8ffda, 0x47092c07, 0xabfc7920, 0x6d002f1e, 1, 9, 0x21e1cde6, 5);
    NextStep(INITIAL, x, 25, 0x6d002f1e, 0xb7f268cf, 0x47092c07, 0xabfc7920, 1, 14, 0xc33707d6, 9);
    NextStep(INITIAL, x, 26, 0xabfc7920, 0x09388eff, 0xb7f268cf, 0x47092c07, 1, 3, 0xf4d50d87, 14);
    NextStep(INITIAL, x, 27, 0x47092c07, 0xfe1623b1, 0x09388eff, 0xb7f268cf, 1, 8, 0x455a14ed, 20);
    NextStep(INITIAL, x, 28, 0xb7f268cf, 0x786acb8f, 0xfe1623b1, 0x09388eff, 1, 13, 0xa9e3e905, 5);
    NextStep(INITIAL, x, 29, 0x09388eff, 0x790a77fb, 0x786acb8f, 0xfe1623b1, 1, 2, 0xfcefa3f8, 9);
    NextStep(INITIAL, x, 30, 0xfe1623b1, 0x9f47e4f8, 0x790a77fb, 0x786acb8f, 1, 7, 0x676f02d9, 14);
    NextStep(INITIAL, x, 31, 0x786acb8f, 0xa62884aa, 0x9f47e4f8, 0x790a77fb, 1, 12, 0x8d2a4c8a, 20);
  }

  lemma Steps48(x: seq<word>)
    requires IsAbc(x)
    ensures Steps(INITIAL, x, 48) == Registers(0x7f2e507b, 0x7beb9700, 0x8fae6399, 0x99d9679d)
  {
    hide Steps, Pick, T, Shift;
    TableThree();
    Steps32(x);
    NextStep(INITIAL, x, 32, 0x790a77fb, 0x726342d3, 0xa62884aa, 0x9f47e4f8, 2, 5, 0xfffa3942, 4);
    NextStep(INITIAL, x, 33, 0x9f47e4f8, 0xb3707ebf, 0x726342d3, 0xa62884aa, 2, 8, 0x8771f681, 11);
    NextStep(INITIAL, x, 34, 0xa62884aa, 0x60127b2e, 0xb3707ebf, 0x726342d3, 2, 11, 0x6d9d6122, 16);
    NextStep(INITIAL, x, 35, 0x726342d3, 0x8d212ff5, 0x60127b2e, 0xb3707ebf, 2, 14, 0xfde5380c, 23);
    NextStep(INITIAL, x, 36, 0xb3707ebf, 0x3b0875c7, 0x8d212ff5, 0x60127b2e, 2, 1, 0xa4beea44, 4);
    NextStep(INITIAL, x, 37, 0x60127b2e, 0x21b117b9, 0x3b0875c7, 0x8d212ff5, 2, 4, 0x4bdecfa9, 11);
    NextStep(INITIAL, x, 38, 0x8d212ff5, 0x6e7429d5, 0x21b117b9, 0x3b0875c7, 2, 7, 0xf6bb4b60, 16);
    NextStep(INITIAL, x, 39, 0x3b0875c7, 0x3575227e, 0x6e7429d5, 0x21b117b9, 2, 10, 0xbebfbc70, 23);
    NextStep(INITIAL, x, 40, 0x21b117b9, 0x5a2f5ea5, 0x3575227e, 0x6e7429d5, 2, 13, 0x289b7ec6, 4);
    NextStep(INITIAL, x, 41, 0x6e7429d5, 0x11de1779, 0x5a2f5ea5, 0x3575227e, 2, 0, 0xeaa127fa, 11);
    NextStep(INITIAL, x, 42, 0x3575227e, 0xfadcaa38, 0x11de1779, 0x5a2f5ea5, 2, 3, 0xd4ef3085, 16);
    NextStep(INITIAL, x, 43, 0x5a2f5ea5, 0x31c465ca, 0xfadcaa38, 0x11de1779, 2, 6, 0x04881d05, 23);
    NextStep(INITIAL, x, 44, 0x11de1779, 0x4c6124f4, 0x31c465ca, 0xfadcaa38, 2, 9, 0xd9d4d039, 4);
    NextStep(INITIAL, x, 45, 0xfadcaa38, 0x7f2e507b, 0x4c6124f4, 0x31c465ca, 2, 12, 0xe6db99e5, 11);
    NextStep(INITIAL, x, 46, 0x31c465ca, 0x99d9679d, 0x7f2e507b, 0x4c6124f4, 2, 15, 0x1fa27cf8, 16);
    NextStep(INITIAL, x, 47, 0x4c6124f4, 0x8fae6399, 0x99d9679d, 0x7f2e507b, 2, 2, 0xc4ac5665, 23);
  }

  lemma Steps64(x: seq<word>)
    requires IsAbc(x)
    ensures Steps(INITIAL, x, 64) == Registers(0x310ade8f, 0xc08226b3, 0xe484b9d8, 0x624d8cb2)
  {
    hide Steps, Pick, T, Shift;
    TableFour();
    Steps48(x);
    NextStep(INITIAL, x, 48, 0x7f2e507b, 0x7beb9700, 0x8fae6399, 0x99d9679d, 3, 0, 0xf4292244, 6);
    NextStep(INITIAL, x, 49, 0x99d9679d, 0x7b201df8, 0x7beb9700, 0x8fae6399, 3, 7, 0x432aff97, 10);
    NextStep(INITIAL, x, 50, 0x8fae6399, 0xf4e8e96e, 0x7b201df8, 0x7beb9700, 3, 14, 0xab9423a7, 15);
    NextStep(INITIAL, x, 51, 0x7beb9700, 0xb298cefd, 0xf4e8e96e, 0x7b201df8, 3, 5, 0xfc93a039, 21);
    NextStep(INITIAL, x, 52, 0x7b201df8, 0x8bf025c4, 0xb298cefd, 0xf4e8e96e, 3, 12, 0x655b59c3, 6);
    NextStep(INITIAL, x, 53, 0xf4e8e96e, 0x06cc5e8a, 0x8bf025c4, 0xb298cefd, 3, 3, 0x8f0ccc92, 10);
    NextStep(INITIAL, x, 54, 0xb298cefd, 0x5b0d97aa, 0x06cc5e8a, 0x8bf025c4, 3, 10, 0xffeff47d, 15);
    NextStep(INITIAL, x, 55, 0x8bf025c4, 0x7d632dd0, 0x5b0d97aa, 0x06cc5e8a, 3, 1, 0x85845dd1, 21);
    NextStep(INITIAL, x, 56, 0x06cc5e8a, 0x3bfa2c27, 0x7d632dd0, 0x5b0d97aa, 3, 8, 0x6fa87e4f, 6);
    NextStep(INITIAL, x, 57, 0x5b0d97aa, 0x7f81cc35, 0x3bfa2c27, 0x7d632dd0, 3, 15, 0xfe2ce6e0, 10);
    NextStep(INITIAL, x, 58, 0x7d632dd0, 0x094454ab, 0x7f81cc35, 0x3bfa2c27, 3, 6, 0xa3014314, 15);
    NextStep(INITIAL, x, 59, 0x3bfa2c27, 0x4f9dbe3f, 0x094454ab, 0x7f81cc35, 3, 13, 0x4e0811a1, 21);
    NextStep(INITIAL, x, 60, 0x7f81cc35, 0x7327d604, 0x4f9dbe3f, 0x094454ab, 3, 4, 0xf7537e82, 6);
    NextStep(INITIAL, x, 61, 0x094454ab, 0x310ade8f, 0x7327d604, 0x4f9dbe3f, 3, 11, 0xbd3af235, 10);
    NextStep(INITIAL, x, 62, 0x4f9dbe3f, 0x624d8cb2, 0x310ade8f, 0x7327d604, 3, 2, 0x2ad7d2bb, 15);
    NextStep(INITIAL, x, 63, 0x7327d604, 0xe484b9d8, 0x624d8cb2, 0x310ade8f, 3, 9, 0xeb86d391, 21);
  }

  lemma AbcBlock()
    ensures var s := [0x61, 0x62, 0x63] + Padding(3); |s| == 64 && IsAbc(Words(s))
  {
    hide ByteOf;
    var s: seq<byte> := [0x61, 0x62, 0x63] + Padding(3);
    LengthOfAbc();
    assert Gap(3) == 52;
    var x := Words(s);
    assert s[56..] == LengthBytes(3);
    assert s[56] == 24 && forall i :: 4 <= i < 64 && i != 56 ==> s[i] == 0;
    WordValues();
  }

  lemma LengthOfAbc()
    ensures LengthBytes(3) == [24, 0, 0, 0, 0, 0, 0, 0]
  {
    hide LittleEndian32;
    assert Bits(3) == 24;
    SmallWords();
  }

  lemma SmallWords()
    ensures LittleEndian32(24) == [24, 0, 0, 0] && LittleEndian32(0) == [0, 0, 0, 0]
  {
    hide LittleEndian32, ByteOf;
    SmallBytes();
    DigitsGive(24, 24, 0, 0, 0);
    DigitsGive(0, 0, 0, 0, 0);
  }

  lemma DigitsGive(n: nat, a: nat, b: nat, c: nat, d: nat)
    requires a == n % 256 && b == n / 256 % 256 && c == n / 0x1_0000 % 256 && d == n / 0x100_0000 % 256
    ensures LittleEndian32(n) == [ByteOf(a), ByteOf(b), ByteOf(c), ByteOf(d)]
  {
    hide ByteOf;
  }

  lemma SmallBytes()
    ensures ByteOf(0) == 0 && ByteOf(24) == 24
  {
  }

  lemma WordValues()
    ensures Word(0x61, 0x62, 0x63, 0x80) == 0x80636261 && Word(24, 0, 0, 0) == 0x18 && Word(0, 0, 0, 0) == 0
  {
  }

  /** The example of RFC 1321. */
  lemma DigestOfAbc()
    ensures Digest([0x61, 0x62, 0x63])
         == [0x90, 0x01, 0x50, 0x98, 0x3c, 0xd2, 0x4f, 0xb0, 0xd6, 0x96, 0x3f, 0x7d, 0x28, 0xe1, 0x7f, 0x72]
  {
    hide Padding, Steps, Words;
    var s: seq<byte> := [0x61, 0x62, 0x63] + Padding(3);
    AbcBlock();
    Steps64(Words(s));
    AbsorbBlock(INITIAL, s);
  }

  /** The bytes of a number below 2^32, low-order byte first. */
  lemma FourBytes(n: nat)
    requires n < 0x1_0000_0000
    ensures var s := LittleEndian32(n);
            n == s[0] as nat + 256 * s[1] as nat + 0x1_0000 * s[2] as nat + 0x100_0000 * s[3] as nat
  {
    hide ByteOf, LittleEndian32;
    var a, b, c, d := n % 256, n / 256 % 256, n / 0x1_0000 % 256, n / 0x100_0000 % 256;
    BytesOf(a, b, c, d);
    DigitsGive(n, a, b, c, d);
    DigitsSum(n);
  }

  lemma DigitsSum(n: nat)
    requires n < 0x1_0000_0000
    ensures n == n % 256 + 256 * (n / 256 % 256) + 0x1_0000 * (n / 0x1_0000 % 256) + 0x100_0000 * (n / 0x100_0000 % 256)
  {
    assert n / 256 == 256 * (n / 0x1_0000) + n / 256 % 256 && n / 0x1_0000 == 256 * (n / 0x100_0000) + n / 0x1_0000 % 256;
  }

  lemma BytesOf(a: nat, b: nat, c: nat, d: nat)
    requires a < 256 && b < 256 && c < 256 && d < 256
    ensures ByteOf(a) as nat == a && ByteOf(b) as nat == b && ByteOf(c) as nat == c && ByteOf(d) as nat == d
  {
  }

  /** The last eight bytes of the padding are the length in bits modulo 2^64,
      low-order byte first. */
  lemma LengthMeans(n: nat)
    ensures var s := LengthBytes(n);
            8 * n % 0x1_0000_0000_0000_0000
            == s[0] as nat + 256 * s[1] as nat + 0x1_0000 * s[2] as nat + 0x100_0000 * s[3] as nat
               + 0x1_0000_0000 * (s[4] as nat + 256 * s[5] as nat + 0x1_0000 * s[6] as nat + 0x100_0000 * s[7] as nat)
  {
    hide LittleEndian32;
    var b := 8 * n % 0x1_0000_0000_0000_0000;
    HalvesFit(b);
    FourBytes(b % 0x1_0000_0000);
    FourBytes(b / 0x1_0000_0000);
  }

  lemma HalvesFit(b: nat)
    requires b < 0x1_0000_0000_0000_0000
    ensures b / 0x1_0000_0000 < 0x1_0000_0000 && b == 0x1_0000_0000 * (b / 0x1_0000_0000) + b % 0x1_0000_0000
  {
  }

  /** The padding: a one bit, zeros, and the length, up to a whole block. */
  lemma PaddingMeans(n: nat, i: nat)
    requires i < |Padding(n)|
    ensures var s := Padding(n);
            && (n + |s|) % 64 == 0 && 9 <= |s| <= 72 && s[|s| - 8..] == LengthBytes(n)
            && s[0] == 0x80 && (0 < i < |s| - 8 ==> s[i] == 0)
  {
    hide LengthBytes;
  }
}
