/** Base64 (section 4 of RFC 4648): what it means, and that it can be undone. */
module Base64Spec {
  import opened Bytes
  import opened Options

  type word = bv32

  const PAD: byte := 61

  // -------------------------------------------------------------------------
  // The alphabet

  /** The letter of a 6-bit value. */
  function Letter(v: word): byte
    requires v < 64
  {
    if v < 26 then (v + 65) as byte
    else if v < 52 then (v + 71) as byte
    else if v < 62 then (v - 4) as byte
    else if v == 62 then 43 else 47
  }

  predicate IsLetter(c: byte) {
    65 <= c <= 90 || 97 <= c <= 122 || 48 <= c <= 57 || c == 43 || c == 47
  }

  /** The 6-bit value of a letter. */
  function Value(c: byte): (v: word)
    requires IsLetter(c)
    ensures v < 64
  {
    if 65 <= c <= 90 then (c as word) - 65
    else if 97 <= c <= 122 then (c as word) - 71
    else if 48 <= c <= 57 then (c as word) + 4
    else if c == 43 then 62 else 63
  }

  lemma LetterHasValue(v: word)
    requires v < 64
    ensures IsLetter(Letter(v)) && Value(Letter(v)) == v && Letter(v) != PAD
  {
  }

  // -------------------------------------------------------------------------
  // Groups of 24 bits: three bytes, or four 6-bit values

  function Group(b0: byte, b1: byte, b2: byte): word {
    ((b0 as word) << 16) | ((b1 as word) << 8) | (b2 as word)
  }

  function Six0(g: word): (v: word)
    ensures v < 64
  {
    (g >> 18) & 63
  }

  function Six1(g: word): (v: word)
    ensures v < 64
  {
    (g >> 12) & 63
  }

  function Six2(g: word): (v: word)
    ensures v < 64
  {
    (g >> 6) & 63
  }

  function Six3(g: word): (v: word)
    ensures v < 64
  {
    g & 63
  }

  function Join(v0: word, v1: word, v2: word, v3: word): word {
    (v0 << 18) | (v1 << 12) | (v2 << 6) | v3
  }

  function Byte0(g: word): byte {
    ((g >> 16) & 0xff) as byte
  }

  function Byte1(g: word): byte {
    ((g >> 8) & 0xff) as byte
  }

  function Byte2(g: word): byte {
    (g & 0xff) as byte
  }

  lemma JoinedRaw(g: word)
    requires g < 0x100_0000
    ensures (((g >> 18) & 63) << 18) | (((g >> 12) & 63) << 12) | (((g >> 6) & 63) << 6) | (g & 63) == g
  {
  }

  lemma GroupedRaw(b0: byte, b1: byte, b2: byte)
    ensures var g := ((b0 as word) << 16) | ((b1 as word) << 8) | (b2 as word);
            && g < 0x100_0000 && ((g >> 16) & 0xff) as byte == b0 && ((g >> 8) & 0xff) as byte == b1
            && (g & 0xff) as byte == b2
  {
  }

  /** Four values, joined, give the three bytes back. */
  lemma GroupRoundTrip(b0: byte, b1: byte, b2: byte)
    ensures var g := Group(b0, b1, b2); var h := Join(Six0(g), Six1(g), Six2(g), Six3(g));
            Byte0(h) == b0 && Byte1(h) == b1 && Byte2(h) == b2
  {
    hide Group, Join, Byte0, Byte1, Byte2, Six0, Six1, Six2, Six3;
    GroupHoldsBytes(b0, b1, b2);
    SixesJoin(Group(b0, b1, b2));
  }

  lemma GroupHoldsBytes(b0: byte, b1: byte, b2: byte)
    ensures var g := Group(b0, b1, b2);
            g < 0x100_0000 && Byte0(g) == b0 && Byte1(g) == b1 && Byte2(g) == b2
  {
    GroupedRaw(b0, b1, b2);
  }

  lemma SixesJoin(g: word)
    requires g < 0x100_0000
    ensures Join(Six0(g), Six1(g), Six2(g), Six3(g)) == g
  {
    JoinedRaw(g);
  }

  // -------------------------------------------------------------------------
  // Encoding and decoding

  function Quad(b0: byte, b1: byte, b2: byte): (t: seq<byte>)
    ensures |t| == 4
  {
    var g := Group(b0, b1, b2);
    [Letter(Six0(g)), Letter(Six1(g)), Letter(Six2(g)), Letter(Six3(g))]
  }

  /** The last one or two bytes, zeros added on the right, and padding for what is missing. */
  function Tail(s: seq<byte>): (t: seq<byte>)
    requires 1 <= |s| <= 2
    ensures |t| == 4
  {
    var q := Quad(s[0], if |s| == 2 then s[1] else 0, 0);
    if |s| == 2 then q[..3] + [PAD] else q[..2] + [PAD, PAD]
  }

  function Encode(s: seq<byte>): (t: seq<byte>)
    ensures |t| == (|s| + 2) / 3 * 4
  {
    if s == [] then [] else if |s| <= 2 then Tail(s) else Quad(s[0], s[1], s[2]) + Encode(s[3..])
  }

  /** How many characters carry data: all but up to two padding characters at the end. */
  function DataLength(t: seq<byte>): (n: nat)
    ensures n <= |t| && |t| <= n + 2
  {
    if |t| < 4 || t[|t| - 1] != PAD then |t|
    else if t[|t| - 2] != PAD then |t| - 1
    else |t| - 2
  }

  predicate AllLetters(t: seq<byte>) {
    forall i :: 0 <= i < |t| ==> IsLetter(t[i])
  }

  /** The bytes of up to four letters. */
  function Unquad(t: seq<byte>): (s: seq<byte>)
    requires 2 <= |t| <= 4 && AllLetters(t)
    ensures |s| == |t| - 1
  {
    var g := Join(Value(t[0]), Value(t[1]), if |t| > 2 then Value(t[2]) else 0, if |t| > 3 then Value(t[3]) else 0);
    [Byte0(g), Byte1(g), Byte2(g)][..|t| - 1]
  }

  function Bytes3(t: seq<byte>): (s: seq<byte>)
    requires |t| % 4 != 1 && AllLetters(t)
    ensures |s| == |t| / 4 * 3 + (|t| % 4 * 6) / 8
  {
    if t == [] then [] else if |t| <= 4 then Unquad(t) else Unquad(t[..4]) + Bytes3(t[4..])
  }

  function Decode(t: seq<byte>): Option<seq<byte>> {
    var data := t[..DataLength(t)];
    if |t| % 4 == 0 && AllLetters(data) then Some(Bytes3(data)) else None
  }

  lemma QuadUndone(b0: byte, b1: byte, b2: byte)
    ensures var q := Quad(b0, b1, b2);
            && AllLetters(q) && q[3] != PAD && q[2] != PAD && Unquad(q) == [b0, b1, b2]
  {
    hide Letter, Value, IsLetter, Join, Byte0, Byte1, Byte2, Six0, Six1, Six2, Six3, Group;
    var g := Group(b0, b1, b2);
    LetterHasValue(Six0(g));
    LetterHasValue(Six1(g));
    LetterHasValue(Six2(g));
    LetterHasValue(Six3(g));
    GroupRoundTrip(b0, b1, b2);
  }

  lemma ShortHasZeros(b0: byte, b1: byte)
    ensures Six3(Group(b0, b1, 0)) == 0
    ensures Six2(Group(b0, 0, 0)) == 0 && Six3(Group(b0, 0, 0)) == 0
  {
    ShortSixes(b0, b1);
  }

  lemma ShortSixes(b0: byte, b1: byte)
    ensures (((b0 as word) << 16) | ((b1 as word) << 8) | (0 as byte as word)) & 63 == 0
    ensures ((((b0 as word) << 16) | ((0 as byte as word) << 8) | (0 as byte as word)) >> 6) & 63 == 0
    ensures (((b0 as word) << 16) | ((0 as byte as word) << 8) | (0 as byte as word)) & 63 == 0
  {
  }

  lemma TailUndone(s: seq<byte>)
    requires 1 <= |s| <= 2
    ensures var data := Tail(s)[..|s| + 1];
            && DataLength(Tail(s)) == |s| + 1 && AllLetters(data) && Unquad(data) == s
  {
    hide Letter, Value, IsLetter, Join, Byte0, Byte1, Byte2, Six0, Six1, Six2, Six3, Group;
    var b0, b1 := s[0], if |s| == 2 then s[1] else 0;
    var q, g := Quad(b0, b1, 0), Group(b0, b1, 0);
    QuadUndone(b0, b1, 0);
    ShortHasZeros(b0, b1);
    LetterHasValue(Six0(g));
    LetterHasValue(Six1(g));
    LetterHasValue(Six2(g));
    GroupRoundTrip(b0, b1, 0);
    if |s| == 2 {
      assert Tail(s)[..3] == q[..3];
      assert Unquad(Tail(s)[..3]) == [b0, b1];
    } else {
      assert Tail(s)[..2] == q[..2];
      assert Unquad(Tail(s)[..2]) == [b0];
    }
  }

  lemma NoLetters()
    ensures Carries([], [])
  {
  }

  lemma DataGoesOn(q: seq<byte>, rest: seq<byte>)
    requires |q| == 4 && q[3] != PAD && |rest| % 4 == 0
    ensures DataLength(q + rest) == 4 + DataLength(rest)
    ensures (q + rest)[..DataLength(q + rest)] == q + rest[..DataLength(rest)]
  {
    assert rest == [] ==> (q + rest)[3] == q[3];
  }

  lemma OneGroup(t: seq<byte>)
    requires 2 <= |t| <= 4 && AllLetters(t)
    ensures Bytes3(t) == Unquad(t)
  {
    hide IsLetter, Unquad;
  }

  lemma MoreGroups(q: seq<byte>, more: seq<byte>)
    requires |q| == 4 && AllLetters(q) && AllLetters(more) && |more| % 4 != 1
    ensures |q + more| % 4 != 1 && AllLetters(q + more) && Bytes3(q + more) == Unquad(q) + Bytes3(more)
  {
    hide IsLetter, Unquad;
    assert (q + more)[..4] == q && (q + more)[4..] == more;
    if more == [] {
      assert q + more == q;
    }
  }

  /** The text before the padding stands for these bytes. */
  predicate Carries(t: seq<byte>, s: seq<byte>) {
    var data := t[..DataLength(t)];
    |t| % 4 == 0 && |data| % 4 != 1 && AllLetters(data) && Bytes3(data) == s
  }

  lemma TailCarries(s: seq<byte>)
    requires 1 <= |s| <= 2
    ensures Carries(Tail(s), s)
  {
    hide AllLetters, DataLength, Unquad, Bytes3, Tail;
    TailUndone(s);
    OneGroup(Tail(s)[..|s| + 1]);
  }

  lemma QuadCarries(b0: byte, b1: byte, b2: byte, rest: seq<byte>, s: seq<byte>)
    requires Carries(rest, s)
    ensures Carries(Quad(b0, b1, b2) + rest, [b0, b1, b2] + s)
  {
    hide AllLetters, DataLength, Unquad, Quad, Bytes3;
    QuadUndone(b0, b1, b2);
    DataGoesOn(Quad(b0, b1, b2), rest);
    MoreGroups(Quad(b0, b1, b2), rest[..DataLength(rest)]);
  }

  lemma {:induction false} EncodeIsData(s: seq<byte>)
    ensures Carries(Encode(s), s)
  {
    hide Carries, Quad, Tail;
    NoLetters();
    if s == [] {
    } else if |s| <= 2 {
      TailCarries(s);
    } else {
      EncodeIsData(s[3..]);
      QuadCarries(s[0], s[1], s[2], Encode(s[3..]), s[3..]);
      assert s == [s[0], s[1], s[2]] + s[3..];
    }
  }

  /** Every byte string comes back. */
  lemma RoundTrip(s: seq<byte>)
    ensures Decode(Encode(s)) == Some(s)
  {
    hide Encode, DataLength, AllLetters, Bytes3;
    EncodeIsData(s);
  }

  /** Decoding fails for a length that is no multiple of four or a character
      outside the alphabet before the padding, and for nothing else. */
  lemma DecodeFailsExactly(t: seq<byte>)
    ensures Decode(t) == None <==>
            |t| % 4 != 0 || exists i :: 0 <= i < DataLength(t) && !IsLetter(t[i])
  {
    hide IsLetter, Bytes3;
    var data := t[..DataLength(t)];
    if i :| 0 <= i < DataLength(t) && !IsLetter(t[i]) {
      assert !IsLetter(data[i]);
    } else {
      assert forall i :: 0 <= i < |data| ==> data[i] == t[i];
    }
  }
}

/** The server's Base64: tables, word-wide reads and overlapping word-wide writes. */
module Base64 {
  import opened Bytes
  import opened Options
  import opened Base64Spec

  // -------------------------------------------------------------------------
  // Encoding

  // The three encoding tables, each with an entry for every byte value

  function E0(t: word): byte
    requires t < 256
  {
    Letter(t >> 2)
  }

  function E1(t: word): byte
    requires t < 256
  {
    Letter(t & 63)
  }

  function E2(t: word): byte
    requires t < 256
  {
    Letter(t & 63)
  }

  function Index1(t1: word, t2: word): (t: word)
    ensures t < 256
  {
    ((t1 & 0x03) << 4) | ((t2 >> 4) & 0x0f)
  }

  function Index2(t2: word, t3: word): (t: word)
    ensures t < 256
  {
    ((t2 & 0x0f) << 2) | ((t3 >> 6) & 0x03)
  }

  lemma IndicesRaw(b0: byte, b1: byte, b2: byte)
    ensures var t1, t2, t3 := b0 as word, b1 as word, b2 as word;
            var g := (t1 << 16) | (t2 << 8) | t3;
            && t1 >> 2 == (g >> 18) & 63
            && (((t1 & 0x03) << 4) | ((t2 >> 4) & 0x0f)) & 63 == (g >> 12) & 63
            && (((t2 & 0x0f) << 2) | ((t3 >> 6) & 0x03)) & 63 == (g >> 6) & 63
            && t3 & 63 == g & 63 && t1 < 256 && t2 < 256 && t3 < 256
  {
  }

  lemma TableLetters(b0: byte, b1: byte, b2: byte)
    ensures var t1, t2, t3 := b0 as word, b1 as word, b2 as word;
            && t1 < 256 && t2 < 256 && t3 < 256
            && Quad(b0, b1, b2) == [E0(t1), E1(Index1(t1, t2)), E1(Index2(t2, t3)), E2(t3)]
            && E2(Index2(t2, t3)) == E1(Index2(t2, t3))
  {
    hide Letter;
    IndicesRaw(b0, b1, b2);
  }

  lemma {:induction false} EncodeGoesOn(s: seq<byte>, i: nat)
    requires i + 3 <= |s|
    ensures Encode(s[i..]) == Quad(s[i], s[i + 1], s[i + 2]) + Encode(s[i + 3..])
  {
    hide Quad, Tail;
    var rest := s[i..];
    assert rest[3..] == s[i + 3..];
  }

  function EncodeLen(n: nat): nat {
    (n + 2) / 3 * 4 + 1
  }

  method PutQuad(dest: array<byte>, p: nat, q: seq<byte>)
    requires |q| == 4 && p + 4 <= dest.Length
    modifies dest
    ensures dest[..p + 4] == old(dest[..p]) + q && dest[p + 4..] == old(dest[p + 4..])
  {
    dest[p] := q[0];
    dest[p + 1] := q[1];
    dest[p + 2] := q[2];
    dest[p + 3] := q[3];
  }

  /** The loop over whole groups of three bytes. */
  method EncodeGroups(dest: array<byte>, str: array<byte>) returns (i: nat, p: nat)
    requires dest != str && dest.Length >= EncodeLen(str.Length)
    modifies dest
    ensures i <= str.Length < i + 3 && 3 * p == 4 * i && p <= dest.Length
    ensures dest[..p] + Encode(str[i..]) == Encode(str[..]) && dest[p..] == old(dest[p..])
  {
    hide Quad, Tail, Encode, E0, E1, E2, Index1, Index2;
    ghost var s := str[..];
    i, p := 0, 0;
    while i + 2 < str.Length
      invariant 0 <= i <= str.Length && 3 * p == 4 * i
      invariant dest[..p] + Encode(s[i..]) == Encode(s)
      invariant dest[p..] == old(dest[p..])
    {
      var t1, t2, t3 := str[i] as word, str[i + 1] as word, str[i + 2] as word;
      TableLetters(str[i], str[i + 1], str[i + 2]);
      EncodeGoesOn(s, i);
      Associate(dest[..p], Quad(s[i], s[i + 1], s[i + 2]), Encode(s[i + 3..]));
      PutQuad(dest, p, [E0(t1), E1(Index1(t1, t2)), E1(Index2(t2, t3)), E2(t3)]);
      p := p + 4;
      i := i + 3;
    }
    assert s[i..] == str[i..];
  }

  /** Encodes into a buffer of the announced size; a zero byte follows the text. */
  method ModpB64Encode(dest: array<byte>, str: array<byte>) returns (n: nat)
    requires dest != str && dest.Length >= EncodeLen(str.Length)
    modifies dest
    ensures n + 1 <= EncodeLen(str.Length)
    ensures dest[..n] == Encode(str[..]) && dest[n] == 0 && dest[n + 1..] == old(dest[n + 1..])
  {
    hide Encode, E0, E1, E2, Index1, Index2;
    var i, p := EncodeGroups(dest, str);
    ghost var left := str[i..];
    if str.Length - i == 1 {
      var t1 := str[i] as word;
      OneLetter(left);
      PutQuad(dest, p, [E0(t1), E1(Index1(t1, 0)), PAD, PAD]);
      p := p + 4;
    } else if str.Length - i == 2 {
      var t1, t2 := str[i] as word, str[i + 1] as word;
      TwoLetters(left);
      PutQuad(dest, p, [E0(t1), E1(Index1(t1, t2)), E2(Index2(t2, 0)), PAD]);
      p := p + 4;
    } else {
      NothingLeft(left);
    }
    dest[p] := 0;
    n := p;
  }

  lemma NothingLeft(s: seq<byte>)
    requires s == []
    ensures Encode(s) == []
  {
  }

  lemma OneLetter(s: seq<byte>)
    requires |s| == 1
    ensures s[0] as word < 256
    ensures Encode(s) == [E0(s[0] as word), E1(Index1(s[0] as word, 0)), PAD, PAD]
  {
    hide Quad, E0, E1, E2, Index1, Index2;
    TableLetters(s[0], 0, 0);
    assert (0 as byte) as word == 0;
  }

  lemma TwoLetters(s: seq<byte>)
    requires |s| == 2
    ensures s[0] as word < 256 && s[1] as word < 256
    ensures Encode(s) == [E0(s[0] as word), E1(Index1(s[0] as word, s[1] as word)), E2(Index2(s[1] as word, 0)), PAD]
  {
    hide Quad, E0, E1, E2, Index1, Index2;
    TableLetters(s[0], s[1], 0);
    assert (0 as byte) as word == 0;
  }

  // -------------------------------------------------------------------------
  // Decoding

  const BADCHAR: word := 0x01ffffff

  // The four decoding tables: each puts the bits of its character where they
  // belong in a word stored low-order byte first

  function D0(c: byte): word {
    if IsLetter(c) then Value(c) << 2 else BADCHAR
  }

  function D1(c: byte): word {
    if IsLetter(c) then (Value(c) >> 4) | ((Value(c) & 15) << 12) else BADCHAR
  }

  function D2(c: byte): word {
    if IsLetter(c) then ((Value(c) >> 2) << 8) | ((Value(c) & 3) << 22) else BADCHAR
  }

  function D3(c: byte): word {
    if IsLetter(c) then Value(c) << 16 else BADCHAR
  }

  function Or(a: word, b: word): word {
    a | b
  }

  lemma BadDominates(a: word, b: word)
    ensures a >= BADCHAR && a & BADCHAR == BADCHAR ==> (a | b) >= BADCHAR && (a | b) & BADCHAR == BADCHAR
    ensures b & BADCHAR == BADCHAR ==> (a | b) >= BADCHAR && (a | b) & BADCHAR == BADCHAR
    ensures BADCHAR & BADCHAR == BADCHAR
  {
  }

  lemma GoodWordRaw(v0: word, v1: word, v2: word, v3: word)
    requires v0 < 64 && v1 < 64 && v2 < 64 && v3 < 64
    ensures var x := (((v0 << 2) | ((v1 >> 4) | ((v1 & 15) << 12))) | (((v2 >> 2) << 8) | ((v2 & 3) << 22))) | (v3 << 16);
            var g := (v0 << 18) | (v1 << 12) | (v2 << 6) | v3;
            && x < 0x100_0000
            && (x & 0xff) as byte == ((g >> 16) & 0xff) as byte
            && ((x >> 8) & 0xff) as byte == ((g >> 8) & 0xff) as byte
            && ((x >> 16) & 0xff) as byte == (g & 0xff) as byte
  {
  }

  function Low0(x: word): byte {
    (x & 0xff) as byte
  }

  function Low1(x: word): byte {
    ((x >> 8) & 0xff) as byte
  }

  function Low2(x: word): byte {
    ((x >> 16) & 0xff) as byte
  }

  function Low3(x: word): byte {
    ((x >> 24) & 0xff) as byte
  }

  predicate Bad(x: word) {
    x & BADCHAR == BADCHAR
  }

  lemma BadStays(a: word, b: word)
    ensures Bad(a) || Bad(b) ==> Bad(Or(a, b))
    ensures Bad(a) ==> a >= BADCHAR
    ensures Bad(BADCHAR)
  {
    BadDominates(a, b);
  }

  function Look2(c0: byte, c1: byte): word {
    Or(D0(c0), D1(c1))
  }

  function Look3(c0: byte, c1: byte, c2: byte): word {
    Or(Look2(c0, c1), D2(c2))
  }

  function Look4(c0: byte, c1: byte, c2: byte, c3: byte): word {
    Or(Look3(c0, c1, c2), D3(c3))
  }

  lemma BadLook(c0: byte, c1: byte, c2: byte, c3: byte)
    ensures !IsLetter(c0) || !IsLetter(c1) ==> Look2(c0, c1) >= BADCHAR
    ensures !IsLetter(c0) || !IsLetter(c1) || !IsLetter(c2) ==> Look3(c0, c1, c2) >= BADCHAR
    ensures !IsLetter(c0) || !IsLetter(c1) || !IsLetter(c2) || !IsLetter(c3) ==> Look4(c0, c1, c2, c3) >= BADCHAR
  {
    hide IsLetter, Value, Or, Bad;
    BadStays(D0(c0), D1(c1));
    BadStays(Look2(c0, c1), D2(c2));
    BadStays(Look3(c0, c1, c2), D3(c3));
    BadStays(Look4(c0, c1, c2, c3), 0);
  }

  lemma GoodLook4(c0: byte, c1: byte, c2: byte, c3: byte)
    requires IsLetter(c0) && IsLetter(c1) && IsLetter(c2) && IsLetter(c3)
    ensures var x := Look4(c0, c1, c2, c3);
            x < BADCHAR && [Low0(x), Low1(x), Low2(x)] == Unquad([c0, c1, c2, c3])
  {
    hide IsLetter, Value;
    GoodWordRaw(Value(c0), Value(c1), Value(c2), Value(c3));
  }

  lemma GoodWord3Raw(v0: word, v1: word, v2: word)
    requires v0 < 64 && v1 < 64 && v2 < 64
    ensures var x := ((v0 << 2) | ((v1 >> 4) | ((v1 & 15) << 12))) | (((v2 >> 2) << 8) | ((v2 & 3) << 22));
            var g := (v0 << 18) | (v1 << 12) | (v2 << 6) | (0 as word);
            && x < 0x100_0000
            && (x & 0xff) as byte == ((g >> 16) & 0xff) as byte
            && ((x >> 8) & 0xff) as byte == ((g >> 8) & 0xff) as byte
  {
  }

  lemma GoodLook3(c0: byte, c1: byte, c2: byte)
    requires IsLetter(c0) && IsLetter(c1) && IsLetter(c2)
    ensures var x := Look3(c0, c1, c2);
            x < BADCHAR && [Low0(x), Low1(x)] == Unquad([c0, c1, c2])
  {
    hide IsLetter, Value;
    GoodWord3Raw(Value(c0), Value(c1), Value(c2));
  }

  lemma GoodWord2Raw(v0: word, v1: word)
    requires v0 < 64 && v1 < 64
    ensures var x := (v0 << 2) | ((v1 >> 4) | ((v1 & 15) << 12));
            var g := (v0 << 18) | (v1 << 12) | (0 << 6) | (0 as word);
            x < 0x100_0000 && (x & 0xff) as byte == ((g >> 16) & 0xff) as byte
  {
  }

  lemma GoodLook2(c0: byte, c1: byte)
    requires IsLetter(c0) && IsLetter(c1)
    ensures var x := Look2(c0, c1);
            x < BADCHAR && [Low0(x)] == Unquad([c0, c1])
  {
    hide IsLetter, Value;
    GoodWord2Raw(Value(c0), Value(c1));
  }

  // Word-wide access to byte buffers on a little-endian machine

  function Load(b0: byte, b1: byte, b2: byte, b3: byte): word {
    (b0 as word) | ((b1 as word) << 8) | ((b2 as word) << 16) | ((b3 as word) << 24)
  }

  lemma LoadedLanes(b0: byte, b1: byte, b2: byte, b3: byte)
    ensures var y := Load(b0, b1, b2, b3);
            Low0(y) == b0 && Low1(y) == b1 && Low2(y) == b2 && Low3(y) == b3
  {
    LoadedRaw(b0, b1, b2, b3);
  }

  lemma LoadedRaw(b0: byte, b1: byte, b2: byte, b3: byte)
    ensures var y := (b0 as word) | ((b1 as word) << 8) | ((b2 as word) << 16) | ((b3 as word) << 24);
            && (y & 0xff) as byte == b0 && ((y >> 8) & 0xff) as byte == b1
            && ((y >> 16) & 0xff) as byte == b2 && ((y >> 24) & 0xff) as byte == b3
  {
  }

  method LoadWord(src: array<byte>, at: nat) returns (y: word)
    requires at + 4 <= src.Length
    ensures [Low0(y), Low1(y), Low2(y), Low3(y)] == src[at..at + 4]
  {
    hide Load, Low0, Low1, Low2, Low3;
    y := Load(src[at], src[at + 1], src[at + 2], src[at + 3]);
    LoadedLanes(src[at], src[at + 1], src[at + 2], src[at + 3]);
  }

  method StoreWord(dest: array<byte>, at: nat, x: word)
    requires at + 4 <= dest.Length
    modifies dest
    ensures dest[..at + 3] == old(dest[..at]) + [Low0(x), Low1(x), Low2(x)]
  {
    hide Low0, Low1, Low2, Low3;
    dest[at] := Low0(x);
    dest[at + 1] := Low1(x);
    dest[at + 2] := Low2(x);
    dest[at + 3] := Low3(x);
  }

  lemma {:induction false} BytesAppend(a: seq<byte>, b: seq<byte>)
    requires |a| % 4 == 0 && AllLetters(a) && AllLetters(b) && 2 <= |b| <= 4
    ensures AllLetters(a + b) && |a + b| % 4 != 1 && Bytes3(a + b) == Bytes3(a) + Unquad(b)
    decreases |a|
  {
    hide AllLetters, Unquad, Bytes3;
    NothingDecoded();
    LettersOfBoth(a, b);
    if a == [] {
      OneGroup(b);
      assert a + b == b;
    } else {
      var q, more := a[..4], a[4..];
      assert a == q + more && a + b == q + (more + b);
      LettersOfBoth(q, more);
      BytesAppend(more, b);
      MoreGroups(q, more);
      MoreGroups(q, more + b);
    }
  }

  /** The loop over whole words; each store overlaps the next by one byte. */
  method DecodeChunks(dest: array<byte>, src: array<byte>, chunks: nat) returns (ok: bool, y: word)
    requires dest != src && 4 * chunks + 4 <= src.Length && 3 * chunks + 1 <= dest.Length
    modifies dest
    ensures ok <==> AllLetters(src[..4 * chunks])
    ensures ok ==> dest[..3 * chunks] == Bytes3(src[..4 * chunks])
    ensures ok ==> [Low0(y), Low1(y), Low2(y), Low3(y)] == src[4 * chunks..4 * chunks + 4]
  {
    hide IsLetter, Unquad, Low0, Low1, Low2, Low3, Look4, Bytes3, AllLetters;
    ghost var t := src[..];
    NothingDecoded();
    y := LoadWord(src, 0);
    var i := 0;
    while i < chunks
      invariant 0 <= i <= chunks && AllLetters(t[..4 * i]) && dest[..3 * i] == Bytes3(t[..4 * i])
      invariant [Low0(y), Low1(y), Low2(y), Low3(y)] == src[4 * i..4 * i + 4]
    {
      var x := Look4(Low0(y), Low1(y), Low2(y), Low3(y));
      ChunkDecoded(t, i);
      if x >= BADCHAR {
        SomeBad(t[..4 * chunks], i);
        ok := false;
        return;
      }
      StoreWord(dest, 3 * i, x);
      y := LoadWord(src, 4 * i + 4);
      i := i + 1;
    }
    ok := true;
  }

  lemma NothingDecoded()
    ensures AllLetters([]) && Bytes3([]) == []
  {
  }

  predicate Good4(t: seq<byte>, i: nat)
    requires 4 * i + 4 <= |t|
  {
    IsLetter(t[4 * i]) && IsLetter(t[4 * i + 1]) && IsLetter(t[4 * i + 2]) && IsLetter(t[4 * i + 3])
  }

  lemma SomeBad(t: seq<byte>, i: nat)
    requires 4 * i + 4 <= |t| && !Good4(t, i)
    ensures !AllLetters(t)
  {
  }

  /** What one look-up says of the next four characters. */
  lemma ChunkDecoded(t: seq<byte>, i: nat)
    requires 4 * i + 4 <= |t| && AllLetters(t[..4 * i])
    ensures var x := Look4(t[4 * i], t[4 * i + 1], t[4 * i + 2], t[4 * i + 3]);
            if x >= BADCHAR then !Good4(t, i)
            else Good4(t, i) && AllLetters(t[..4 * (i + 1)])
                 && Bytes3(t[..4 * (i + 1)]) == Bytes3(t[..4 * i]) + [Low0(x), Low1(x), Low2(x)]
  {
    hide IsLetter, Unquad, Low0, Low1, Low2, Low3, Look4, Bytes3;
    BadLook(t[4 * i], t[4 * i + 1], t[4 * i + 2], t[4 * i + 3]);
    if Good4(t, i) {
      GoodLook4(t[4 * i], t[4 * i + 1], t[4 * i + 2], t[4 * i + 3]);
      var b := [t[4 * i], t[4 * i + 1], t[4 * i + 2], t[4 * i + 3]];
      BytesAppend(t[..4 * i], b);
      assert t[..4 * (i + 1)] == t[..4 * i] + b;
    }
  }

  lemma DataOf(t: seq<byte>, first: seq<byte>, last: seq<byte>)
    requires |t| % 4 == 0 && |first| % 4 == 0 && 2 <= |last| <= 4 && first + last == t[..DataLength(t)]
    ensures Decode(t) == if AllLetters(first) && AllLetters(last) then Some(Bytes3(first) + Unquad(last)) else None
  {
    hide AllLetters, Unquad, DataLength, Bytes3;
    LettersOfBoth(first, last);
    if AllLetters(first) && AllLetters(last) {
      BytesAppend(first, last);
    }
  }

  lemma LettersOfBoth(a: seq<byte>, b: seq<byte>)
    ensures AllLetters(a + b) <==> AllLetters(a) && AllLetters(b)
  {
    hide IsLetter;
    if AllLetters(a + b) {
      forall i | 0 <= i < |a|
        ensures IsLetter(a[i])
      {
        assert (a + b)[i] == a[i];
      }
      forall i | 0 <= i < |b|
        ensures IsLetter(b[i])
      {
        assert (a + b)[|a| + i] == b[i];
      }
    }
  }

  lemma LettersOfFew(c0: byte, c1: byte, c2: byte, c3: byte)
    ensures AllLetters([c0, c1]) <==> IsLetter(c0) && IsLetter(c1)
    ensures AllLetters([c0, c1, c2]) <==> IsLetter(c0) && IsLetter(c1) && IsLetter(c2)
    ensures AllLetters([c0, c1, c2, c3]) <==> IsLetter(c0) && IsLetter(c1) && IsLetter(c2) && IsLetter(c3)
  {
    hide IsLetter;
    var t2, t3, t4 := [c0, c1], [c0, c1, c2], [c0, c1, c2, c3];
    assert t2[0] == c0 && t2[1] == c1;
    assert t3[0] == c0 && t3[1] == c1 && t3[2] == c2;
    assert t4[0] == c0 && t4[1] == c1 && t4[2] == c2 && t4[3] == c3;
  }

  /** The last two, three or four characters, already loaded. */
  method DecodeLast(dest: array<byte>, p: nat, y: word, leftover: nat) returns (ok: bool, n: nat)
    requires p + (if leftover == 0 then 3 else leftover - 1) <= dest.Length && leftover != 1 && leftover < 4
    modifies dest
    ensures var last := [Low0(y), Low1(y), Low2(y), Low3(y)][..if leftover == 0 then 4 else leftover];
            && (ok <==> AllLetters(last))
            && (ok ==> n == p + |last| - 1 && dest[..n] == old(dest[..p]) + Unquad(last))
  {
    hide IsLetter, AllLetters, Unquad, Low0, Low1, Low2, Low3, Look2, Look3, Look4;
    BadLook(Low0(y), Low1(y), Low2(y), Low3(y));
    LettersOfFew(Low0(y), Low1(y), Low2(y), Low3(y));
    ghost var four := [Low0(y), Low1(y), Low2(y), Low3(y)];
    if leftover == 0 {
      var x := Look4(Low0(y), Low1(y), Low2(y), Low3(y));
      assert four[..4] == four;
      if IsLetter(Low0(y)) && IsLetter(Low1(y)) && IsLetter(Low2(y)) && IsLetter(Low3(y)) {
        GoodLook4(Low0(y), Low1(y), Low2(y), Low3(y));
      }
      if x >= BADCHAR {
        return false, 0;
      }
      dest[p], dest[p + 1], dest[p + 2] := Low0(x), Low1(x), Low2(x);
      return true, p + 3;
    }
    var x: word;
    if leftover == 2 {
      x := Look2(Low0(y), Low1(y));
      dest[p] := Low0(x);
      assert four[..2] == [Low0(y), Low1(y)];
      if IsLetter(Low0(y)) && IsLetter(Low1(y)) {
        GoodLook2(Low0(y), Low1(y));
      }
    } else {
      x := Look3(Low0(y), Low1(y), Low2(y));
      dest[p], dest[p + 1] := Low0(x), Low1(x);
      assert four[..3] == [Low0(y), Low1(y), Low2(y)];
      if IsLetter(Low0(y)) && IsLetter(Low1(y)) && IsLetter(Low2(y)) {
        GoodLook3(Low0(y), Low1(y), Low2(y));
      }
    }
    ok := x < BADCHAR;
    n := p + 6 * leftover / 8;
  }

  /** Decodes into a buffer of three quarters of the text's size: -1 for what
      Decode refuses and for nothing else. */
  method ModpB64Decode(dest: array<byte>, src: array<byte>) returns (r: int)
    requires dest != src && dest.Length >= src.Length * 3 / 4
    modifies dest
    ensures r < 0 <==> Decode(src[..]) == None
    ensures r < 0 ==> r == -1
    ensures r >= 0 ==> r <= dest.Length && Decode(src[..]) == Some(dest[..r])
  {
    hide IsLetter, Unquad, Bytes3, AllLetters, Low0, Low1, Low2, Low3;
    var len := src.Length;
    NothingDecoded();
    if len == 0 {
      return 0;
    }
    if len < 4 || len % 4 != 0 {
      return -1;
    }
    if src[len - 1] == PAD {
      len := len - 1;
      if src[len - 1] == PAD {
        len := len - 1;
      }
    }
    assert len == DataLength(src[..]);
    var leftover := len % 4;
    var chunks := if leftover == 0 then len / 4 - 1 else len / 4;
    assert src.Length == 4 * (chunks + 1);
    ghost var first, last := src[..4 * chunks], src[4 * chunks..len];
    assert src[..][..DataLength(src[..])] == first + last;
    DataOf(src[..], first, last);
    var good, y := DecodeChunks(dest, src, chunks);
    if !good {
      return -1;
    }
    assert last == [Low0(y), Low1(y), Low2(y), Low3(y)][..if leftover == 0 then 4 else leftover];
    var ok, n := DecodeLast(dest, 3 * chunks, y, leftover);
    r := if ok then n else -1;
  }
}
