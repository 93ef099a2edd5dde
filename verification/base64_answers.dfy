/** Base64 letter by letter: the whole alphabet, and the examples of section 10 of
    RFC 4648. */
module Base64Answers {
  import opened Bytes
  import opened Options
  import Base64
  import opened Base64Spec

  /** The groups 0 to 63 of six bits are the letters A to Z, a to z, 0 to 9, + and /. */
  lemma WholeAlphabet()
    ensures Quad(0x00, 0x10, 0x83) == [0x41, 0x42, 0x43, 0x44] // ABCD
    ensures Quad(0x10, 0x51, 0x87) == [0x45, 0x46, 0x47, 0x48] // EFGH
    ensures Quad(0x20, 0x92, 0x8b) == [0x49, 0x4a, 0x4b, 0x4c] // IJKL
    ensures Quad(0x30, 0xd3, 0x8f) == [0x4d, 0x4e, 0x4f, 0x50] // MNOP
    ensures Quad(0x41, 0x14, 0x93) == [0x51, 0x52, 0x53, 0x54] // QRST
    ensures Quad(0x51, 0x55, 0x97) == [0x55, 0x56, 0x57, 0x58] // UVWX
    ensures Quad(0x61, 0x96, 0x9b) == [0x59, 0x5a, 0x61, 0x62] // YZab
    ensures Quad(0x71, 0xd7, 0x9f) == [0x63, 0x64, 0x65, 0x66] // cdef
    ensures Quad(0x82, 0x18, 0xa3) == [0x67, 0x68, 0x69, 0x6a] // ghij
    ensures Quad(0x92, 0x59, 0xa7) == [0x6b, 0x6c, 0x6d, 0x6e] // klmn
    ensures Quad(0xa2, 0x9a, 0xab) == [0x6f, 0x70, 0x71, 0x72] // opqr
    ensures Quad(0xb2, 0xdb, 0xaf) == [0x73, 0x74, 0x75, 0x76] // stuv
    ensures Quad(0xc3, 0x1c, 0xb3) == [0x77, 0x78, 0x79, 0x7a] // wxyz
    ensures Quad(0xd3, 0x5d, 0xb7) == [0x30, 0x31, 0x32, 0x33] // 0123
    ensures Quad(0xe3, 0x9e, 0xbb) == [0x34, 0x35, 0x36, 0x37] // 4567
    ensures Quad(0xf3, 0xdf, 0xbf) == [0x38, 0x39, 0x2b, 0x2f] // 89+/
  {
  }

  /** "f", "fo", "foo", "foob", "fooba" and "foobar". */
  lemma Examples()
    ensures Encode([0x66]) == [0x5a, 0x67, 0x3d, 0x3d] // Zg==
    ensures Encode([0x66, 0x6f]) == [0x5a, 0x6d, 0x38, 0x3d] // Zm8=
    ensures Encode([0x66, 0x6f, 0x6f]) == [0x5a, 0x6d, 0x39, 0x76] // Zm9v
    ensures Encode([0x66, 0x6f, 0x6f, 0x62]) == [0x5a, 0x6d, 0x39, 0x76, 0x59, 0x67, 0x3d, 0x3d] // Zm9vYg==
    ensures Encode([0x66, 0x6f, 0x6f, 0x62, 0x61]) == [0x5a, 0x6d, 0x39, 0x76, 0x59, 0x6d, 0x45, 0x3d] // Zm9vYmE=
    ensures Encode([0x66, 0x6f, 0x6f, 0x62, 0x61, 0x72]) == [0x5a, 0x6d, 0x39, 0x76, 0x59, 0x6d, 0x46, 0x79] // Zm9vYmFy
    ensures Encode([]) == []
  {
    hide Quad, Tail;
    Groups();
    var o, b, ba, bar: seq<byte> := [], [0x62], [0x62, 0x61], [0x62, 0x61, 0x72];
    OneGroupMore(0x66, 0x6f, 0x6f, o);
    OneGroupMore(0x66, 0x6f, 0x6f, b);
    OneGroupMore(0x66, 0x6f, 0x6f, ba);
    OneGroupMore(0x66, 0x6f, 0x6f, bar);
    OneGroupMore(0x62, 0x61, 0x72, o);
    assert [0x66, 0x6f, 0x6f] + o == [0x66, 0x6f, 0x6f] && bar + o == bar;
    assert [0x66, 0x6f, 0x6f] + b == [0x66, 0x6f, 0x6f, 0x62] && [0x66, 0x6f, 0x6f] + ba == [0x66, 0x6f, 0x6f, 0x62, 0x61];
    assert [0x66, 0x6f, 0x6f] + bar == [0x66, 0x6f, 0x6f, 0x62, 0x61, 0x72];
  }

  lemma OneGroupMore(b0: byte, b1: byte, b2: byte, rest: seq<byte>)
    ensures Encode([b0, b1, b2] + rest) == Quad(b0, b1, b2) + Encode(rest)
  {
    hide Quad;
    assert ([b0, b1, b2] + rest)[3..] == rest;
  }

  lemma Groups()
    ensures Quad(0x66, 0x6f, 0x6f) == [0x5a, 0x6d, 0x39, 0x76] && Quad(0x62, 0x61, 0x72) == [0x59, 0x6d, 0x46, 0x79]
    ensures Tail([0x66]) == [0x5a, 0x67, 0x3d, 0x3d] && Tail([0x66, 0x6f]) == [0x5a, 0x6d, 0x38, 0x3d]
    ensures Tail([0x62]) == [0x59, 0x67, 0x3d, 0x3d] && Tail([0x62, 0x61]) == [0x59, 0x6d, 0x45, 0x3d]
  {
  }

  /** The characters that decode are the letters, each as its group. */
  lemma LettersAreAlphabet(c: byte)
    ensures IsLetter(c) <==> exists v: word :: v < 64 && Letter(v) == c
    ensures IsLetter(c) ==> Letter(Value(c)) == c
  {
    if IsLetter(c) {
      var v := Value(c);
      assert v < 64 && Letter(v) == c;
    }
  }

  /** Decoding fails exactly if the length is no multiple of four, or a character
      before up to two closing "=" is no letter. */
  lemma DecodeLaw(t: seq<byte>)
    ensures var closing := if |t| < 4 || t[|t| - 1] != 0x3d then 0 else if t[|t| - 2] != 0x3d then 1 else 2;
            Decode(t) == None <==> |t| % 4 != 0 || exists i :: 0 <= i < |t| - closing && !IsLetter(t[i])
  {
    hide IsLetter, Decode;
    DecodeFailsExactly(t);
  }

  /** Four letters for every three bytes begun, and a closing zero byte: the room that
      callers are told to provide is exactly what is used. */
  lemma RoomIsExact(s: seq<byte>)
    ensures |Encode(s)| == (|s| + 2) / 3 * 4 && Base64.EncodeLen(|s|) == |Encode(s)| + 1
  {
  }
}
