/** SHA-1 (FIPS 180-3): the digest of a byte string as the standard defines it. */
module Sha1Spec {
  import opened Blocks
  import opened Bytes

  type word = bv32

  datatype Vars = Vars(a: word, b: word, c: word, d: word, e: word)

  const INITIAL := Vars(0x67452301, 0xefcdab89, 0x98badcfe, 0x10325476, 0xc3d2e1f0)

  function Rotl(n: nat, x: word): word
    requires n <= 32
  {
    (x << n) | (x >> (32 - n))
  }

  // The logical functions and constants (sections 4.1.1 and 4.2.1)

  function Ch(x: word, y: word, z: word): word {
    (x & y) ^ (!x & z)
  }

  function Parity(x: word, y: word, z: word): word {
    x ^ y ^ z
  }

  function Maj(x: word, y: word, z: word): word {
    (x & y) ^ (x & z) ^ (y & z)
  }

  function Logical(t: nat, x: word, y: word, z: word): word {
    if t < 20 then Ch(x, y, z) else if t < 40 then Parity(x, y, z) else if t < 60 then Maj(x, y, z) else Parity(x, y, z)
  }

  function Constant(t: nat): word {
    if t < 20 then 0x5a827999 else if t < 40 then 0x6ed9eba1 else if t < 60 then 0x8f1bbcdc else 0xca62c1d6
  }

  function Xor(w: word, x: word, y: word, z: word): word {
    w ^ x ^ y ^ z
  }

  function Sum(p: word, f: word, e: word, k: word, w: word): word {
    p + f + e + k + w
  }

  function Plus(x: word, y: word): word {
    x + y
  }

  /** Four bytes as a word, high-order byte first. */
  function BigWord(b0: byte, b1: byte, b2: byte, b3: byte): word {
    ((b0 as word) << 24) | ((b1 as word) << 16) | ((b2 as word) << 8) | (b3 as word)
  }

  function WordBytes(w: word): (s: seq<byte>)
    ensures |s| == 4
  {
    [((w >> 24) & 0xff) as byte, ((w >> 16) & 0xff) as byte, ((w >> 8) & 0xff) as byte, (w & 0xff) as byte]
  }

  function BlockWord(block: seq<byte>, t: nat): word
    requires |block| == 64 && t < 16
  {
    BigWord(block[4 * t], block[4 * t + 1], block[4 * t + 2], block[4 * t + 3])
  }

  /** The message schedule of a block (step 1 of section 6.1.2). */
  function Schedule(block: seq<byte>, t: nat): word
    requires |block| == 64
  {
    if t < 16 then BlockWord(block, t)
    else Rotl(1, Xor(Schedule(block, t - 3), Schedule(block, t - 8), Schedule(block, t - 14), Schedule(block, t - 16)))
  }

  /** Step 3 of section 6.1.2, for one t. */
  function Round(v: Vars, block: seq<byte>, t: nat): Vars
    requires |block| == 64
  {
    var next := Sum(Rotl(5, v.a), Logical(t, v.b, v.c, v.d), v.e, Constant(t), Schedule(block, t));
    Vars(next, v.a, Rotl(30, v.b), v.c, v.d)
  }

  function Rounds(v: Vars, block: seq<byte>, n: nat): Vars
    requires |block| == 64
  {
    if n == 0 then v else Round(Rounds(v, block, n - 1), block, n - 1)
  }

  function Compress(v: Vars, block: seq<byte>): Vars
    requires |block| == 64
  {
    var after := Rounds(v, block, 80);
    Vars(Plus(v.a, after.a), Plus(v.b, after.b), Plus(v.c, after.c), Plus(v.d, after.d), Plus(v.e, after.e))
  }

  function Absorb(v: Vars, s: seq<byte>): Vars
    requires |s| % 64 == 0
    decreases |s|
  {
    if s == [] then v else Absorb(Compress(v, s[..64]), s[64..])
  }

  /** A one bit, zeros up to 56 bytes modulo 64, and the length in bits in eight
      bytes, high-order byte first (section 5.1.1); the standard admits messages
      of fewer than 2^64 bits. */
  function Padding(n: nat): (s: seq<byte>)
    ensures (n + |s|) % 64 == 0
  {
    [0x80] + Zeros(Gap(n)) + ToBigEndian(8 * n, 8)
  }

  function Output(v: Vars): (s: seq<byte>)
    ensures |s| == 20
  {
    WordBytes(v.a) + WordBytes(v.b) + WordBytes(v.c) + WordBytes(v.d) + WordBytes(v.e)
  }

  function Digest(message: seq<byte>): (s: seq<byte>)
    ensures |s| == 20
  {
    Output(Absorb(INITIAL, message + Padding(|message|)))
  }

  lemma {:induction false} AbsorbAppend(v: Vars, a: seq<byte>, b: seq<byte>)
    requires |a| % 64 == 0 && |b| % 64 == 0
    ensures Absorb(v, a + b) == Absorb(Absorb(v, a), b)
    decreases |a|
  {
    if a == [] {
      assert a + b == b;
    } else {
      assert (a + b)[..64] == a[..64] && (a + b)[64..] == a[64..] + b;
      AbsorbAppend(Compress(v, a[..64]), a[64..], b);
    }
  }

  lemma AbsorbOneMore(done: seq<byte>, block: seq<byte>)
    requires |done| % 64 == 0 && |block| == 64
    ensures Absorb(INITIAL, done + block) == Compress(Absorb(INITIAL, done), block)
  {
    AbsorbAppend(INITIAL, done, block);
    assert block[..64] == block && block[64..] == [];
  }
}

/** The server's SHA-1: one byte at a time into a block that shares its memory
    with the message schedule. */
module Sha1 {
  import opened Blocks
  import opened Bytes
  import opened Sha1Spec

  // -------------------------------------------------------------------------
  // The memory that bytes and words share, on a little-endian machine

  function Byte0(w: word): byte {
    (w & 0xff) as byte
  }

  function Byte1(w: word): byte {
    ((w >> 8) & 0xff) as byte
  }

  function Byte2(w: word): byte {
    ((w >> 16) & 0xff) as byte
  }

  function Byte3(w: word): byte {
    ((w >> 24) & 0xff) as byte
  }

  /** Byte `k` of a word in memory. */
  function Lane(w: word, k: nat): byte
    requires k < 4
  {
    if k == 0 then Byte0(w) else if k == 1 then Byte1(w) else if k == 2 then Byte2(w) else Byte3(w)
  }

  function Set0(w: word, b: byte): (v: word)
    ensures Byte0(v) == b && Byte1(v) == Byte1(w) && Byte2(v) == Byte2(w) && Byte3(v) == Byte3(w)
  {
    SetLanes0(w, b);
    (w & 0xffffff00) | (b as word)
  }

  function Set1(w: word, b: byte): (v: word)
    ensures Byte0(v) == Byte0(w) && Byte1(v) == b && Byte2(v) == Byte2(w) && Byte3(v) == Byte3(w)
  {
    SetLanes1(w, b);
    (w & 0xffff00ff) | ((b as word) << 8)
  }

  function Set2(w: word, b: byte): (v: word)
    ensures Byte0(v) == Byte0(w) && Byte1(v) == Byte1(w) && Byte2(v) == b && Byte3(v) == Byte3(w)
  {
    SetLanes2(w, b);
    (w & 0xff00ffff) | ((b as word) << 16)
  }

  function Set3(w: word, b: byte): (v: word)
    ensures Byte0(v) == Byte0(w) && Byte1(v) == Byte1(w) && Byte2(v) == Byte2(w) && Byte3(v) == b
  {
    SetLanes3(w, b);
    (w & 0x00ffffff) | ((b as word) << 24)
  }

  function SetLane(w: word, k: nat, b: byte): word
    requires k < 4
  {
    if k == 0 then Set0(w, b) else if k == 1 then Set1(w, b) else if k == 2 then Set2(w, b) else Set3(w, b)
  }

  lemma SetThenGet(w: word, k: nat, b: byte, j: nat)
    requires k < 4 && j < 4
    ensures Lane(SetLane(w, k, b), j) == if j == k then b else Lane(w, j)
  {
    hide Byte0, Byte1, Byte2, Byte3, Set0, Set1, Set2, Set3;
  }

  lemma SetLanes0(w: word, b: byte)
    ensures (((w & 0xffffff00) | (b as word)) & 0xff) as byte == b
    ensures ((((w & 0xffffff00) | (b as word)) >> 8) & 0xff) as byte == ((w >> 8) & 0xff) as byte
    ensures ((((w & 0xffffff00) | (b as word)) >> 16) & 0xff) as byte == ((w >> 16) & 0xff) as byte
    ensures ((((w & 0xffffff00) | (b as word)) >> 24) & 0xff) as byte == ((w >> 24) & 0xff) as byte
  {
  }

  lemma SetLanes1(w: word, b: byte)
    ensures (((w & 0xffff00ff) | ((b as word) << 8)) & 0xff) as byte == (w & 0xff) as byte
    ensures ((((w & 0xffff00ff) | ((b as word) << 8)) >> 8) & 0xff) as byte == b
    ensures ((((w & 0xffff00ff) | ((b as word) << 8)) >> 16) & 0xff) as byte == ((w >> 16) & 0xff) as byte
    ensures ((((w & 0xffff00ff) | ((b as word) << 8)) >> 24) & 0xff) as byte == ((w >> 24) & 0xff) as byte
  {
  }

  lemma SetLanes2(w: word, b: byte)
    ensures (((w & 0xff00ffff) | ((b as word) << 16)) & 0xff) as byte == (w & 0xff) as byte
    ensures ((((w & 0xff00ffff) | ((b as word) << 16)) >> 8) & 0xff) as byte == ((w >> 8) & 0xff) as byte
    ensures ((((w & 0xff00ffff) | ((b as word) << 16)) >> 16) & 0xff) as byte == b
    ensures ((((w & 0xff00ffff) | ((b as word) << 16)) >> 24) & 0xff) as byte == ((w >> 24) & 0xff) as byte
  {
  }

  lemma SetLanes3(w: word, b: byte)
    ensures (((w & 0x00ffffff) | ((b as word) << 24)) & 0xff) as byte == (w & 0xff) as byte
    ensures ((((w & 0x00ffffff) | ((b as word) << 24)) >> 8) & 0xff) as byte == ((w >> 8) & 0xff) as byte
    ensures ((((w & 0x00ffffff) | ((b as word) << 24)) >> 16) & 0xff) as byte == ((w >> 16) & 0xff) as byte
    ensures ((((w & 0x00ffffff) | ((b as word) << 24)) >> 24) & 0xff) as byte == b
  {
  }

  function SwapEnds(t: word): word {
    ((t & 0xff000000) >> 24) | ((t & 0xff0000) >> 8) | ((t & 0xff00) << 8) | ((t & 0xff) << 24)
  }

  /** Swapping reads a word's bytes the other way round, and lays it out so. */
  lemma SwapReadsBigEndian(w: word)
    ensures SwapEnds(w) == BigWord(Lane(w, 0), Lane(w, 1), Lane(w, 2), Lane(w, 3))
  {
    SwappedRaw(w);
  }

  lemma SwappedRaw(t: word)
    ensures ((t & 0xff000000) >> 24) | ((t & 0xff0000) >> 8) | ((t & 0xff00) << 8) | ((t & 0xff) << 24)
         == ((((t & 0xff) as byte) as word) << 24) | (((((t >> 8) & 0xff) as byte) as word) << 16)
            | (((((t >> 16) & 0xff) as byte) as word) << 8) | ((((t >> 24) & 0xff) as byte) as word)
  {
  }

  lemma SwapWritesBigEndian(w: word)
    ensures [Lane(SwapEnds(w), 0), Lane(SwapEnds(w), 1), Lane(SwapEnds(w), 2), Lane(SwapEnds(w), 3)] == WordBytes(w)
  {
    SwappedLanes(w);
  }

  lemma SwappedLanes(t: word)
    ensures var s := ((t & 0xff000000) >> 24) | ((t & 0xff0000) >> 8) | ((t & 0xff00) << 8) | ((t & 0xff) << 24);
            && (s & 0xff) as byte == ((t >> 24) & 0xff) as byte
            && ((s >> 8) & 0xff) as byte == ((t >> 16) & 0xff) as byte
            && ((s >> 16) & 0xff) as byte == ((t >> 8) & 0xff) as byte
            && ((s >> 24) & 0xff) as byte == (t & 0xff) as byte
  {
  }

  /** The block as the words in memory spell it. */
  function Memory(w: seq<word>): (m: seq<byte>)
    requires |w| == 80
    ensures |m| == 64
    ensures forall i :: 0 <= i < 64 ==> m[i] == Lane(w[i / 4], i % 4)
  {
    seq(64, i requires 0 <= i < 64 => Lane(w[i / 4], i % 4))
  }

  lemma StoreByte(w: seq<word>, i: nat, b: byte)
    requires |w| == 80 && i < 64
    ensures Memory(w[i / 4 := SetLane(w[i / 4], i % 4, b)]) == Memory(w)[i := b]
  {
    hide Lane, SetLane;
    var v := w[i / 4 := SetLane(w[i / 4], i % 4, b)];
    forall j | 0 <= j < 64
      ensures Memory(v)[j] == Memory(w)[i := b][j]
    {
      SetThenGet(w[i / 4], i % 4, b, j % 4);
    }
  }

  lemma MemoryAt(w: seq<word>, t: nat, k: nat)
    requires |w| == 80 && t < 16 && k < 4
    ensures Memory(w)[4 * t + k] == Lane(w[t], k)
  {
    hide Lane;
    QuotientUnique(4 * t + k, 4, t, k);
  }

  lemma ScheduleBegins(block: seq<byte>, t: nat)
    requires |block| == 64 && t < 16
    ensures Schedule(block, t) == BlockWord(block, t)
  {
    hide BlockWord, Rotl, Xor;
  }

  lemma SwappedIsBlockWord(w: seq<word>, t: nat)
    requires |w| == 80 && t < 16
    ensures SwapEnds(w[t]) == BlockWord(Memory(w), t)
  {
    hide Memory, Lane, SwapEnds, BigWord;
    SwapReadsBigEndian(w[t]);
    MemoryAt(w, t, 0);
    MemoryAt(w, t, 1);
    MemoryAt(w, t, 2);
    MemoryAt(w, t, 3);
  }

  /** The first sixteen words, swapped, begin the schedule. */
  lemma SwappedIsScheduled(w: seq<word>, t: nat)
    requires |w| == 80 && t < 16
    ensures SwapEnds(w[t]) == Schedule(Memory(w), t)
  {
    hide Memory, Lane, SwapEnds, BigWord, BlockWord, Schedule;
    SwappedIsBlockWord(w, t);
    ScheduleBegins(Memory(w), t);
  }

  // -------------------------------------------------------------------------
  // The code's forms of the logical functions and of the sum

  lemma ChooseByOr(x: word, y: word, z: word)
    ensures (x & y) | (!x & z) == (x & y) ^ (!x & z)
  {
  }

  lemma MajorityByOr(x: word, y: word, z: word)
    ensures (x & y) | (x & z) | (y & z) == (x & y) ^ (x & z) ^ (y & z)
  {
  }

  function ChOr(x: word, y: word, z: word): (r: word)
    ensures r == Ch(x, y, z)
  {
    ChooseByOr(x, y, z);
    (x & y) | (!x & z)
  }

  function MajOr(x: word, y: word, z: word): (r: word)
    ensures r == Maj(x, y, z)
  {
    MajorityByOr(x, y, z);
    (x & y) | (x & z) | (y & z)
  }

  function F(t: nat, b: word, c: word, d: word): (r: word)
    ensures r == Logical(t, b, c, d)
  {
    hide Ch, Maj, ChOr, MajOr;
    if t < 20 then ChOr(b, c, d) else if t < 40 then b ^ c ^ d else if t < 60 then MajOr(b, c, d) else b ^ c ^ d
  }

  function S(n: nat, x: word): (r: word)
    requires n <= 32
    ensures r == Rotl(n, x)
  {
    (x << n) | (x >> (32 - n))
  }

  function K(t: nat): (k: word)
    requires t < 80
    ensures k == Constant(t)
  {
    if t < 20 then 0x5a827999 else if t < 40 then 0x6ed9eba1 else if t < 60 then 0x8f1bbcdc else 0xca62c1d6
  }

  lemma SumReordered(p: word, f: word, e: word, k: word, w: word)
    ensures p + f + e + w + k == Sum(p, f, e, k, w)
  {
  }

  function Temp(p: word, f: word, e: word, w: word, k: word): (r: word)
    ensures r == Sum(p, f, e, k, w)
  {
    SumReordered(p, f, e, k, w);
    p + f + e + w + k
  }

  // -------------------------------------------------------------------------
  // The 32-bit count of bits

  const TWO_32: nat := 0x1_0000_0000

  function LowBytes(n: nat): (s: seq<byte>)
    ensures |s| == 4
  {
    [ByteOf(n / 0x100_0000 % 256), ByteOf(n / 0x1_0000 % 256), ByteOf(n / 256 % 256), ByteOf(n % 256)]
  }

  /** Four bytes after four zeros are the eight bytes of a number that fits into four. */
  lemma LengthFits(b: nat)
    requires b < TWO_32
    ensures ToBigEndian(b, 8) == Zeros(4) + LowBytes(b)
  {
    hide ByteOf;
    assert b / 256 / 256 == b / 0x1_0000 && b / 256 / 256 / 256 == b / 0x100_0000 && b / 256 / 256 / 256 / 256 == 0;
    assert ToBigEndian(b, 8) == ToBigEndian(b / 256, 7) + [ByteOf(b % 256)];
    assert ToBigEndian(b / 256, 7) == ToBigEndian(b / 0x1_0000, 6) + [ByteOf(b / 256 % 256)];
    assert ToBigEndian(b / 0x1_0000, 6) == ToBigEndian(b / 0x100_0000, 5) + [ByteOf(b / 0x1_0000 % 256)];
    assert ToBigEndian(b / 0x100_0000, 5) == ToBigEndian(0, 4) + [ByteOf(b / 0x100_0000 % 256)];
    ZeroBytes(4);
  }

  lemma {:induction false} ZeroBytes(width: nat)
    ensures ToBigEndian(0, width) == Zeros(width)
  {
    if width > 0 {
      ZeroBytes(width - 1);
      assert Zeros(width) == Zeros(width - 1) + [0];
    }
  }

  /** The padding that a 32-bit count of bits leads to, for a message of any length. */
  function CountedPadding(n: nat): (s: seq<byte>)
    ensures (n + |s|) % 64 == 0
  {
    [0x80] + Zeros(Gap(n)) + (Zeros(4) + LowBytes(8 * n % TWO_32))
  }

  /** For the messages that the standard admits, the padding is the standard's exactly
      below 2^29 bytes. */
  lemma PaddingExactlyWhen(n: nat)
    requires 8 * n < TWO_32 * TWO_32
    ensures CountedPadding(n) == Sha1Spec.Padding(n) <==> n < 0x2000_0000
  {
    hide ToBigEndian, BigEndian, LowBytes, Gap, Pow256;
    var b := 8 * n;
    LengthFits(b % TWO_32);
    Capacity();
    BigEndianRoundTrip(b, 8);
    BigEndianRoundTrip(b % TWO_32, 8);
    var front := [0x80] + Zeros(Gap(n));
    if CountedPadding(n) == Sha1Spec.Padding(n) {
      assert CountedPadding(n)[|front|..] == ToBigEndian(b % TWO_32, 8);
      assert Sha1Spec.Padding(n)[|front|..] == ToBigEndian(b, 8);
    }
  }

  lemma Capacity()
    ensures Pow256(8) == TWO_32 * TWO_32
  {
    assert Pow256(2) == 0x1_0000;
    assert Pow256(4) == TWO_32;
    assert Pow256(6) == TWO_32 * 0x1_0000;
  }

  /** What is computed for a message of any length. */
  function CountedDigest(message: seq<byte>): (s: seq<byte>)
    ensures |s| == 20
  {
    Output(Absorb(INITIAL, message + CountedPadding(|message|)))
  }

  lemma CountedDigestIsStandard(message: seq<byte>)
    requires |message| < 0x2000_0000
    ensures CountedDigest(message) == Digest(message)
  {
    PaddingExactlyWhen(|message|);
  }

  // -------------------------------------------------------------------------
  // The computation

  function State(h: array<word>): Vars
    requires h.Length == 5
    reads h
  {
    Vars(h[0], h[1], h[2], h[3], h[4])
  }

  /** Swaps the block's words in place: the beginning of the schedule. */
  method SwapBlock(w: array<word>)
    requires w.Length == 80
    modifies w
    ensures forall t :: 0 <= t < 16 ==> w[t] == Schedule(old(Memory(w[..])), t)
  {
    hide Schedule, Memory, SwapEnds;
    ghost var was := w[..];
    var t := 0;
    while t < 16
      invariant 0 <= t <= 16
      invariant forall i :: 0 <= i < t ==> w[i] == Schedule(Memory(was), i)
      invariant forall i :: t <= i < 16 ==> w[i] == was[i]
    {
      SwappedIsScheduled(was, t);
      w[t] := SwapEnds(w[t]);
      t := t + 1;
    }
  }

  /** The rest of the schedule. */
  method Extend(w: array<word>, ghost block: seq<byte>)
    requires w.Length == 80 && |block| == 64
    requires forall t :: 0 <= t < 16 ==> w[t] == Schedule(block, t)
    modifies w
    ensures forall t :: 0 <= t < 80 ==> w[t] == Schedule(block, t)
  {
    hide Rotl, S, Xor, BigWord;
    var t := 16;
    while t < 80
      invariant 16 <= t <= 80
      invariant forall i :: 0 <= i < t ==> w[i] == Schedule(block, i)
    {
      assert Schedule(block, t) == Rotl(1, Xor(Schedule(block, t - 3), Schedule(block, t - 8),
                                               Schedule(block, t - 14), Schedule(block, t - 16)));
      w[t] := S(1, Xor(w[t - 3], w[t - 8], w[t - 14], w[t - 16]));
      t := t + 1;
    }
  }

  /** The blocks absorbed before the last one. */
  function Ahead(message: seq<byte>): (s: seq<byte>)
    ensures |s| % 64 == 0
  {
    var r := |message| % 64;
    if r < 56 then Whole(message)
    else
      Split(message);
      Whole(message) + (Rest(message) + [0x80] + Zeros(63 - r))
  }

  /** The last block but for the low half of the length. */
  function LastFront(message: seq<byte>): (s: seq<byte>)
    ensures |s| == 60
  {
    Split(message);
    var r := |message| % 64;
    if r < 56 then Rest(message) + [0x80] + Zeros(59 - r) else Zeros(60)
  }

  lemma FrontIs(message: seq<byte>)
    ensures var r, body := |message| % 64, LastFront(message);
            && body == body[..56] + Zeros(4)
            && body[..56] == if r < 56 then Rest(message) + [0x80] + Zeros(55 - r) else Zeros(56)
  {
    Split(message);
  }

  lemma PaddedMessage(message: seq<byte>)
    ensures message + CountedPadding(|message|)
            == Ahead(message) + (LastFront(message) + LowBytes(8 * |message| % TWO_32))
  {
    hide Whole, Rest, Gap, LowBytes, LastFront;
    var length, body := LowBytes(8 * |message| % TWO_32), LastFront(message);
    FrontIs(message);
    LastBlocks(message, body[..56], Zeros(4) + length);
    Associate(body[..56], Zeros(4), length);
  }

  lemma NothingFed()
    ensures Absorb(INITIAL, Whole([])) == INITIAL && Rest([]) == []
  {
  }

  class SecureHashAlgorithm {
    var a: word
    var b: word
    var c: word
    var d: word
    var e: word
    const h: array<word>
    /** The schedule, and in its first sixteen words the block. */
    const w: array<word>
    var cursor: nat
    var l: nat

    /** Everything fed so far. */
    ghost var fed: seq<byte>

    ghost predicate Shaped()
      reads this
    {
      h.Length == 5 && w.Length == 80 && h != w
    }

    ghost function Block(): (m: seq<byte>)
      requires Shaped()
      reads this, w
      ensures |m| == 64
    {
      Memory(w[..])
    }

    ghost predicate Valid()
      reads this, h, w
    {
      && Shaped() && cursor == |fed| % 64
      && Block()[..cursor] == Rest(fed)
      && State(h) == Absorb(INITIAL, Whole(fed))
      && l == 8 * |fed| % TWO_32
    }

    constructor ()
      ensures Valid() && fed == [] && fresh(h) && fresh(w)
    {
      hide Memory, Absorb, Whole, Rest;
      NothingFed();
      a, b, c, d, e, cursor, l, fed := 0, 0, 0, 0, 0, 0, 0, [];
      h := new word[] [0x67452301, 0xefcdab89, 0x98badcfe, 0x10325476, 0xc3d2e1f0];
      w := new word[80];
    }

    /** Eighty rounds from the state so far. */
    method Mix(ghost block: seq<byte>)
      requires Shaped() && |block| == 64 && forall t :: 0 <= t < 80 ==> w[t] == Schedule(block, t)
      modifies `a, `b, `c, `d, `e
      ensures Vars(a, b, c, d, e) == Rounds(State(h), block, 80)
    {
      hide Rotl, S, Sum, Temp, Logical, F, K, Constant, Schedule;
      a, b, c, d, e := h[0], h[1], h[2], h[3], h[4];
      var t := 0;
      while t < 80
        invariant 0 <= t <= 80 && Vars(a, b, c, d, e) == Rounds(State(h), block, t)
      {
        var temp := Temp(S(5, a), F(t, b, c, d), e, w[t], K(t));
        e := d;
        d := c;
        c := S(30, b);
        b := a;
        a := temp;
        t := t + 1;
      }
    }

    /** Absorbs the block; its memory is overwritten by the schedule. */
    method Process()
      requires Shaped()
      modifies `a, `b, `c, `d, `e, `cursor, h, w
      ensures State(h) == Compress(old(State(h)), old(Block())) && cursor == 0
    {
      hide Rounds, Schedule, Memory, Plus;
      ghost var block := Block();
      SwapBlock(w);
      Extend(w, block);
      Mix(block);
      h[0] := Plus(h[0], a);
      h[1] := Plus(h[1], b);
      h[2] := Plus(h[2], c);
      h[3] := Plus(h[3], d);
      h[4] := Plus(h[4], e);
      cursor := 0;
    }

    method Put(x: byte)
      requires Shaped() && cursor < 64
      modifies `cursor, w
      ensures cursor == old(cursor) + 1 && Block() == old(Block())[old(cursor) := x]
    {
      hide Memory, SetLane, Lane;
      StoreByte(w[..], cursor, x);
      ghost var was := w[..];
      w[cursor / 4] := SetLane(w[cursor / 4], cursor % 4, x);
      assert w[..] == was[cursor / 4 := SetLane(was[cursor / 4], cursor % 4, x)];
      cursor := cursor + 1;
    }

    /** The block is full. */
    method FinishBlock(x: byte)
      requires Shaped() && |fed| % 64 == 63 && Block() == Rest(fed) + [x] && State(h) == Absorb(INITIAL, Whole(fed))
      modifies `a, `b, `c, `d, `e, `cursor, h, w
      ensures cursor == 0 && State(h) == Absorb(INITIAL, Whole(fed + [x]))
      ensures Rest(fed + [x]) == [] && |fed + [x]| % 64 == 0
    {
      hide Absorb, Compress, Memory, Whole, Rest;
      CompletesBlock(fed, [x]);
      AbsorbOneMore(Whole(fed), Block());
      Process();
    }

    /** Feeds one byte. */
    method Feed(x: byte)
      requires Valid()
      modifies this, h, w
      ensures Valid() && fed == old(fed) + [x]
    {
      hide Absorb, Compress, Memory, Whole, Rest, State;
      ghost var before := Block()[..cursor];
      Put(x);
      assert Block()[..cursor] == before + [x];
      if cursor >= 64 {
        assert Block() == before + [x];
        FinishBlock(x);
      } else {
        StillRest(fed, [x]);
      }
      l := (l + 8) % TWO_32;
      fed := fed + [x];
    }

    method Update(data: seq<byte>)
      requires Valid()
      modifies this, h, w
      ensures Valid() && fed == old(fed) + data
    {
      hide Valid;
      var i := 0;
      while i < |data|
        invariant 0 <= i <= |data| && Valid() && fed == old(fed) + data[..i]
      {
        Feed(data[i]);
        i := i + 1;
      }
      assert data[..i] == data;
    }

    /** Writes zeros up to position `end`. */
    method Fill(end: nat)
      requires Shaped() && cursor <= end <= 64
      modifies `cursor, w
      ensures cursor == end
      ensures Block()[..end] == old(Block()[..cursor]) + Zeros(end - old(cursor))
    {
      hide Memory;
      ghost var start, front := cursor, Block()[..cursor];
      while cursor < end
        invariant start <= cursor <= end && Block()[..cursor] == front + Zeros(cursor - start)
      {
        ghost var was, at := Block(), cursor;
        Put(0);
        assert Block()[..cursor] == was[..at] + [0];
        assert Zeros(cursor - start) == Zeros(at - start) + [0];
      }
    }

    /** Zeros to the end of the block, which is then absorbed. */
    method FillBlock()
      requires Shaped() && cursor <= 64
      modifies `a, `b, `c, `d, `e, `cursor, h, w
      ensures cursor == 0
      ensures State(h) == Compress(old(State(h)), old(Block()[..cursor]) + Zeros(64 - old(cursor)))
    {
      hide Compress, Memory, State;
      Fill(64);
      assert Block()[..64] == Block();
      Process();
    }

    /** A one bit and zeros up to the place of the low half of the length. */
    method PadFront()
      requires Valid()
      modifies `a, `b, `c, `d, `e, `cursor, h, w
      ensures cursor == 60 && State(h) == Absorb(INITIAL, Ahead(fed))
      ensures Block()[..60] == LastFront(fed)
    {
      hide Absorb, Compress, Memory, Whole, Rest, State;
      ghost var front := Block()[..cursor];
      Put(0x80);
      assert Block()[..cursor] == front + [0x80];
      if cursor > 64 - 8 {
        ghost var first := Rest(fed) + [0x80] + Zeros(63 - |fed| % 64);
        AbsorbOneMore(Whole(fed), first);
        FillBlock();
        assert Block()[..cursor] == [];
      }
      Fill(64 - 4);
    }

    lemma CountIs()
      requires Valid()
      ensures Shaped() && l == 8 * |fed| % TWO_32
    {
    }

    /** Ends the message; the last block is left for the caller to absorb. */
    method Pad()
      requires Valid()
      modifies `a, `b, `c, `d, `e, `cursor, h, w
      ensures State(h) == Absorb(INITIAL, Ahead(fed))
      ensures fed + CountedPadding(|fed|) == Ahead(fed) + Block()
    {
      hide Valid, Absorb, Compress, Memory, CountedPadding, State, LowBytes, Ahead, LastFront;
      CountIs();
      PadFront();
      PutLength();
      PaddedMessage(fed);
    }

    /** The low 32 bits of the length, high-order byte first. */
    method PutLength()
      requires Shaped() && cursor == 60
      modifies `cursor, w
      ensures Block() == old(Block()[..60]) + LowBytes(l)
    {
      hide Memory, ByteOf;
      Put(ByteOf(l / 0x100_0000 % 256));
      Put(ByteOf(l / 0x1_0000 % 256));
      Put(ByteOf(l / 256 % 256));
      Put(ByteOf(l % 256));
    }

    /** The digest: the padded last block, and the state's bytes high-order first. */
    method Final() returns (digest: seq<byte>)
      requires Valid()
      modifies this, h, w
      ensures digest == CountedDigest(old(fed))
      ensures |old(fed)| < 0x2000_0000 ==> digest == Digest(old(fed))
    {
      hide Absorb, Compress, Memory, CountedPadding, Padding, Output, Ahead, Digest;
      Pad();
      AbsorbOneMore(Ahead(fed), Block());
      Process();
      digest := SwapOut(h);
      if |fed| < 0x2000_0000 {
        CountedDigestIsStandard(fed);
      }
    }
  }

  /** Swaps the state in place and reads its bytes in memory order. */
  method SwapOut(h: array<word>) returns (digest: seq<byte>)
    requires h.Length == 5
    modifies h
    ensures digest == Output(old(State(h)))
  {
    hide SwapEnds, Lane, WordBytes;
    digest := [];
    ghost var was := h[..];
    var t := 0;
    while t < 5
      invariant 0 <= t <= 5
      invariant forall i :: t <= i < 5 ==> h[i] == was[i]
      invariant digest == (if t > 0 then WordBytes(was[0]) else []) + (if t > 1 then WordBytes(was[1]) else [])
                        + (if t > 2 then WordBytes(was[2]) else []) + (if t > 3 then WordBytes(was[3]) else [])
                        + (if t > 4 then WordBytes(was[4]) else [])
    {
      SwapWritesBigEndian(h[t]);
      h[t] := SwapEnds(h[t]);
      digest := digest + [Lane(h[t], 0), Lane(h[t], 1), Lane(h[t], 2), Lane(h[t], 3)];
      t := t + 1;
    }
  }

  /** However the data is cut up, the digest is that of all of it, with the padding
      that a 32-bit count leads to: below 2^29 bytes the standard's. */
  method DigestOfAll(parts: seq<seq<byte>>) returns (digest: seq<byte>)
    ensures digest == CountedDigest(Concat(parts))
    ensures |Concat(parts)| < 0x2000_0000 ==> digest == Digest(Concat(parts))
  {
    hide Digest, CountedDigest;
    var sha := new SecureHashAlgorithm();
    var i := 0;
    while i < |parts|
      invariant 0 <= i <= |parts| && sha.Valid() && fresh(sha) && fresh(sha.h) && fresh(sha.w)
      invariant sha.fed + Concat(parts[i..]) == Concat(parts)
    {
      Associate(sha.fed, parts[i], Concat(parts[i + 1..]));
      assert parts[i..][1..] == parts[i + 1..];
      sha.Update(parts[i]);
      i := i + 1;
    }
    assert sha.fed == Concat(parts);
    digest := sha.Final();
  }
}
