/** The opening handshake of section 1.3 of RFC 6455, answered byte by byte. */
module HandshakeAnswers {
  import opened Blocks
  import opened Bytes
  import opened Handshake
  import opened Sha1Answers
  import Base64Spec
  import Sha1Spec

  const SAMPLE_KEY: Text := Ascii("dGhlIHNhbXBsZSBub25jZQ==")

  const S0: Text := [0x64, 0x47, 0x68, 0x6c, 0x49, 0x48, 0x4e, 0x68, 0x62, 0x58, 0x42, 0x73, 0x5a, 0x53, 0x42, 0x75]
  const S1: Text := [0x62, 0x32, 0x35, 0x6a, 0x5a, 0x51, 0x3d, 0x3d]
  const G0: Text := [0x32, 0x35, 0x38, 0x45, 0x41, 0x46, 0x41, 0x35]
  const G1: Text := [0x2d, 0x45, 0x39, 0x31, 0x34, 0x2d, 0x34, 0x37, 0x44, 0x41, 0x2d, 0x39, 0x35, 0x43, 0x41, 0x2d]
  const G2: Text := [0x43, 0x35, 0x41, 0x42, 0x30, 0x44, 0x43, 0x38, 0x35, 0x42, 0x31, 0x31]

  lemma AsciiAppend(a: string, b: string)
    requires forall i :: 0 <= i < |a| ==> a[i] as int < 128
    requires forall i :: 0 <= i < |b| ==> b[i] as int < 128
    ensures Ascii(a + b) == Ascii(a) + Ascii(b)
  {
    hide ByteOf;
  }

  lemma Spelled()
    ensures Ascii("dGhlIHNhbXBsZSBu") == S0
    ensures Ascii("b25jZQ==") == S1
    ensures Ascii("258EAFA5") == G0
    ensures Ascii("-E914-47DA-95CA-") == G1
    ensures Ascii("C5AB0DC85B11") == G2
  {
  }

  lemma KeyBytes()
    ensures SAMPLE_KEY == S0 + S1
  {
    hide Ascii;
    Spelled();
    AsciiAppend("dGhlIHNhbXBsZSBu", "b25jZQ==");
    assert "dGhlIHNhbXBsZSBu" + "b25jZQ==" == "dGhlIHNhbXBsZSBub25jZQ==";
  }

  lemma GuidBytes()
    ensures GUID == G0 + (G1 + G2)
  {
    hide Ascii;
    Spelled();
    AsciiAppend("-E914-47DA-95CA-", "C5AB0DC85B11");
    AsciiAppend("258EAFA5", "-E914-47DA-95CA-" + "C5AB0DC85B11");
    assert "258EAFA5" + ("-E914-47DA-95CA-" + "C5AB0DC85B11") == "258EAFA5-E914-47DA-95CA-C5AB0DC85B11";
  }

  // The padded text is two blocks.

  const FIRST: Text := S0 + (S1 + G0) + G1 + (G2 + [0x80, 0, 0, 0])
  const SECOND: Text := Zeros(62) + [0x01, 0xe0]

  lemma WordsOf(block: Text, k: nat, s: Text)
    requires |block| == 64 && k < 4 && |s| == 16 && block[16 * k..16 * k + 16] == s
    ensures Sha1Spec.BlockWord(block, 4 * k) == Sha1Spec.BigWord(s[0], s[1], s[2], s[3])
    ensures Sha1Spec.BlockWord(block, 4 * k + 1) == Sha1Spec.BigWord(s[4], s[5], s[6], s[7])
    ensures Sha1Spec.BlockWord(block, 4 * k + 2) == Sha1Spec.BigWord(s[8], s[9], s[10], s[11])
    ensures Sha1Spec.BlockWord(block, 4 * k + 3) == Sha1Spec.BigWord(s[12], s[13], s[14], s[15])
  {
    assert forall i :: 0 <= i < 16 ==> block[16 * k + i] == s[i];
  }

  lemma Quarters(a: Text, b: Text, c: Text, d: Text)
    requires |a| == |b| == |c| == |d| == 16
    ensures var s := a + b + c + d; s[0..16] == a && s[16..32] == b && s[32..48] == c && s[48..64] == d
  {
  }

  lemma FirstWords()
    ensures IsFirst(FIRST)
  {
    hide Sha1Spec.BlockWord;
    Quarters(S0, S1 + G0, G1, G2 + [0x80, 0, 0, 0]);
    WordsOf(FIRST, 0, S0);
    WordsOf(FIRST, 1, S1 + G0);
    WordsOf(FIRST, 2, G1);
    WordsOf(FIRST, 3, G2 + [0x80, 0, 0, 0]);
  }

  lemma SecondWords()
    ensures IsSecond(SECOND)
  {
  }

  lemma PaddedTail()
    ensures Sha1Spec.Padding(60) == [0x80, 0, 0, 0] + SECOND
  {
    hide ByteOf, Sha1Spec.Padding;
    PaddingAt(60, 0);
    var s := Sha1Spec.Padding(60);
    assert |s| == 68;
    LengthBytes();
    forall i | 0 <= i < 68
      ensures s[i] == ([0x80, 0, 0, 0] + SECOND)[i]
    {
      PaddingAt(60, i);
    }
  }

  lemma LengthBytes()
    ensures ByteOf(1) == 1 && ByteOf(224) == 224
  {
  }

  lemma SampleBlocks()
    ensures SAMPLE_KEY + GUID + Sha1Spec.Padding(60) == FIRST + SECOND && |SAMPLE_KEY + GUID| == 60
  {
    hide Ascii, Sha1Spec.Padding;
    KeyBytes();
    GuidBytes();
    PaddedTail();
    var tail: Text := [0x80, 0, 0, 0];
    assert S0 + S1 + (G0 + (G1 + G2)) + (tail + SECOND) == S0 + (S1 + G0) + G1 + (G2 + tail) + SECOND;
  }

  lemma SampleDigest()
    ensures Sha1Spec.Digest(SAMPLE_KEY + GUID)
         == [0xb3, 0x7a, 0x4f, 0x2c, 0xc0, 0x62, 0x4f, 0x16, 0x90, 0xf6, 0x46, 0x06]
          + [0xcf, 0x38, 0x59, 0x45, 0xb2, 0xbe, 0xc4, 0xea]
  {
    hide Ascii, Sha1Spec.Padding, Sha1Spec.Rounds, Sha1Spec.BlockWord;
    SampleBlocks();
    FirstWords();
    SecondWords();
    var s := FIRST + SECOND;
    assert s[..64] == FIRST && s[64..] == SECOND;
    FirstCompresses(FIRST);
    SecondCompresses(SECOND);
    OneBlock(Sha1Spec.Compress(Sha1Spec.INITIAL, FIRST), SECOND);
  }

  lemma EncodeQuad(b0: byte, b1: byte, b2: byte, rest: seq<byte>)
    ensures Base64Spec.Encode([b0, b1, b2] + rest) == Base64Spec.Quad(b0, b1, b2) + Base64Spec.Encode(rest)
  {
    hide Base64Spec.Quad;
    assert ([b0, b1, b2] + rest)[3..] == rest;
  }

  lemma EncodeTail(b0: byte, b1: byte)
    ensures Base64Spec.Encode([b0, b1]) == Base64Spec.Tail([b0, b1])
  {
  }

  lemma SampleQuads()
    ensures Base64Spec.Quad(0xb3, 0x7a, 0x4f) == [0x73, 0x33, 0x70, 0x50]
    ensures Base64Spec.Quad(0x2c, 0xc0, 0x62) == [0x4c, 0x4d, 0x42, 0x69]
    ensures Base64Spec.Quad(0x4f, 0x16, 0x90) == [0x54, 0x78, 0x61, 0x51]
    ensures Base64Spec.Quad(0xf6, 0x46, 0x06) == [0x39, 0x6b, 0x59, 0x47]
    ensures Base64Spec.Quad(0xcf, 0x38, 0x59) == [0x7a, 0x7a, 0x68, 0x5a]
    ensures Base64Spec.Quad(0x45, 0xb2, 0xbe) == [0x52, 0x62, 0x4b, 0x2b]
    ensures Base64Spec.Tail([0xc4, 0xea]) == [0x78, 0x4f, 0x6f, 0x3d]
  {
  }

  lemma EncodeStart(rest: seq<byte>)
    ensures Base64Spec.Encode([0xb3, 0x7a, 0x4f, 0x2c, 0xc0, 0x62, 0x4f, 0x16, 0x90, 0xf6, 0x46, 0x06] + rest)
         == [0x73, 0x33, 0x70, 0x50, 0x4c, 0x4d, 0x42, 0x69, 0x54, 0x78, 0x61, 0x51, 0x39, 0x6b, 0x59, 0x47]
          + Base64Spec.Encode(rest)
  {
    hide Base64Spec.Encode, Base64Spec.Quad, Base64Spec.Tail;
    SampleQuads();
    EncodeQuad(0xf6, 0x46, 0x06, rest);
    EncodeQuad(0x4f, 0x16, 0x90, [0xf6, 0x46, 0x06] + (rest));
    EncodeQuad(0x2c, 0xc0, 0x62, [0x4f, 0x16, 0x90] + ([0xf6, 0x46, 0x06] + (rest)));
    EncodeQuad(0xb3, 0x7a, 0x4f, [0x2c, 0xc0, 0x62] + ([0x4f, 0x16, 0x90] + ([0xf6, 0x46, 0x06] + (rest))));
    assert [0xb3, 0x7a, 0x4f, 0x2c, 0xc0, 0x62, 0x4f, 0x16, 0x90, 0xf6, 0x46, 0x06] + rest
        == [0xb3, 0x7a, 0x4f] + ([0x2c, 0xc0, 0x62] + ([0x4f, 0x16, 0x90] + ([0xf6, 0x46, 0x06] + (rest))));
  }

  lemma EncodeEnd()
    ensures Base64Spec.Encode([0xcf, 0x38, 0x59, 0x45, 0xb2, 0xbe, 0xc4, 0xea])
         == [0x7a, 0x7a, 0x68, 0x5a, 0x52, 0x62, 0x4b, 0x2b, 0x78, 0x4f, 0x6f, 0x3d]
  {
    hide Base64Spec.Encode, Base64Spec.Quad, Base64Spec.Tail;
    SampleQuads();
    var end: seq<byte> := [0xc4, 0xea];
    var more: seq<byte> := [0x45, 0xb2, 0xbe] + end;
    EncodeTail(0xc4, 0xea);
    EncodeQuad(0x45, 0xb2, 0xbe, end);
    EncodeQuad(0xcf, 0x38, 0x59, more);
    assert [0xcf, 0x38, 0x59, 0x45, 0xb2, 0xbe, 0xc4, 0xea] == [0xcf, 0x38, 0x59] + more;
    assert Base64Spec.Encode(more) == [0x52, 0x62, 0x4b, 0x2b] + [0x78, 0x4f, 0x6f, 0x3d];
  }

  /** The answer that the standard gives for its sample key. */
  lemma SampleAccepted()
    ensures AcceptValue(SAMPLE_KEY)
         == [0x73, 0x33, 0x70, 0x50, 0x4c, 0x4d, 0x42, 0x69, 0x54, 0x78, 0x61, 0x51, 0x39, 0x6b, 0x59, 0x47]
          + [0x7a, 0x7a, 0x68, 0x5a, 0x52, 0x62, 0x4b, 0x2b, 0x78, 0x4f, 0x6f, 0x3d]
  {
    hide Base64Spec.Encode, Sha1Spec.Digest;
    SampleDigest();
    EncodeStart([0xcf, 0x38, 0x59, 0x45, 0xb2, 0xbe, 0xc4, 0xea]);
    EncodeEnd();
  }

  // A request and its answer, letter by letter

  /** In the names of header fields the twenty-six capitals become the small letters of
      the same places, and no other byte changes. */
  lemma CapitalsLowered(t: Text, i: nat)
    requires i < |t|
    ensures |LowerText(t)| == |t| && LowerText(t)[i] == LowerByte(t[i])
    ensures LowerByte(65) == 97 && LowerByte(66) == 98 && LowerByte(67) == 99 && LowerByte(68) == 100 && LowerByte(69) == 101
    ensures LowerByte(70) == 102 && LowerByte(71) == 103 && LowerByte(72) == 104 && LowerByte(73) == 105 && LowerByte(74) == 106
    ensures LowerByte(75) == 107 && LowerByte(76) == 108 && LowerByte(77) == 109 && LowerByte(78) == 110 && LowerByte(79) == 111
    ensures LowerByte(80) == 112 && LowerByte(81) == 113 && LowerByte(82) == 114 && LowerByte(83) == 115 && LowerByte(84) == 116
    ensures LowerByte(85) == 117 && LowerByte(86) == 118 && LowerByte(87) == 119 && LowerByte(88) == 120 && LowerByte(89) == 121
    ensures LowerByte(90) == 122
    ensures t[i] < 65 || t[i] > 90 ==> LowerText(t)[i] == t[i]
  {
  }

  lemma LowerAppend(a: Text, b: Text)
    ensures LowerText(a + b) == LowerText(a) + LowerText(b)
  {
    hide LowerByte;
  }

  lemma HeaderNames()
    ensures LowerText(Ascii("Sec-WebSocket-Key")) == LOWER_KEY
    ensures LowerText(Ascii("X-Real-IP")) == LOWER_ADDRESS
  {
    hide LowerText, Ascii;
    AsciiAppend("Sec-WebSocket", "-Key");
    AsciiAppend("sec-websocket", "-key");
    LowerAppend(Ascii("Sec-WebSocket"), Ascii("-Key"));
    assert "Sec-WebSocket" + "-Key" == "Sec-WebSocket-Key" && "sec-websocket" + "-key" == "sec-websocket-key";
    LowerParts();
    LowerTails();
  }

  lemma VersionName()
    ensures LowerText(Ascii("Sec-WebSocket-Version")) == LOWER_VERSION
  {
    hide LowerText, Ascii;
    AsciiAppend("Sec-WebSocket", "-Version");
    AsciiAppend("sec-websocket", "-version");
    LowerAppend(Ascii("Sec-WebSocket"), Ascii("-Version"));
    assert "Sec-WebSocket" + "-Version" == "Sec-WebSocket-Version" && "sec-websocket" + "-version" == "sec-websocket-version";
    LowerParts();
    LowerTails();
  }

  lemma LowerParts()
    ensures LowerText(Ascii("Sec-WebSocket")) == Ascii("sec-websocket")
  {
  }

  lemma LowerTails()
    ensures LowerText(Ascii("-Key")) == Ascii("-key") && LowerText(Ascii("-Version")) == Ascii("-version")
    ensures LowerText(Ascii("X-Real-IP")) == Ascii("x-real-ip")
  {
  }

  /** The sample's fields make an acceptable request with that key. */
  lemma SampleRequest()
    ensures var headers := Meaning(map[], [Field(Ascii("Sec-WebSocket-Key"), SAMPLE_KEY),
                                           Field(Ascii("Sec-WebSocket-Version"), Ascii("13"))]);
            Acceptable(headers) && headers[LOWER_KEY] == SAMPLE_KEY
  {
    hide LowerText, Ascii;
    HeaderNames();
    VersionName();
    KeyBytes();
    var key, version := Field(Ascii("Sec-WebSocket-Key"), SAMPLE_KEY), Field(Ascii("Sec-WebSocket-Version"), Ascii("13"));
    DifferentNames();
    var one: Headers := map[][LOWER_KEY := SAMPLE_KEY];
    var both := one[LOWER_VERSION := version.value];
    assert [key, version][1..] == [version] && [version][1..] == [];
    assert Meaning(both, []) == both;
    assert Meaning(one, [version]) == both;
    assert Meaning(map[], [key, version]) == both;
  }

  lemma DifferentNames()
    ensures |LOWER_KEY| == 17 && |LOWER_VERSION| == 21 && |S0| == 16
  {
  }

  lemma LineEnds()
    ensures Ascii("\r\n") == END_OF_LINE && Ascii("\r\n\r\n") == END_OF_HEADERS && Ascii(": ") == SEPARATOR
  {
  }

  /** The answer's lines. */
  lemma ResponseLines(value: Text)
    ensures Response(value)
         == Ascii("HTTP/1.1 101 Switching Protocols\r\n") + Ascii("Upgrade: websocket\r\n") + Ascii("Connection: Upgrade\r\n")
          + Ascii("Sec-WebSocket-Accept: ") + value + Ascii("\r\n\r\n")
  {
    hide Ascii;
    LineEnds();
    AsciiAppend("HTTP/1.1 101 Switching Protocols", "\r\n");
    AsciiAppend("Upgrade: websocket", "\r\n");
    AsciiAppend("Connection: Upgrade", "\r\n");
    AsciiAppend("Sec-WebSocket-Accept", ": ");
    JoinedLines();
    var a, b, c, d, e := Ascii("HTTP/1.1 101 Switching Protocols"), Ascii("Upgrade: websocket"), Ascii("Connection: Upgrade"),
      Ascii("Sec-WebSocket-Accept"), END_OF_LINE;
    assert a + e + b + e + c + e + d + SEPARATOR + value + END_OF_HEADERS
        == (a + e) + (b + e) + (c + e) + (d + SEPARATOR) + value + END_OF_HEADERS;
  }

  lemma JoinedLines()
    ensures "HTTP/1.1 101 Switching Protocols" + "\r\n" == "HTTP/1.1 101 Switching Protocols\r\n"
    ensures "Upgrade: websocket" + "\r\n" == "Upgrade: websocket\r\n"
    ensures "Connection: Upgrade" + "\r\n" == "Connection: Upgrade\r\n"
    ensures "Sec-WebSocket-Accept" + ": " == "Sec-WebSocket-Accept: "
  {
  }
}
