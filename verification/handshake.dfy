/** The opening handshake (section 4.2 of RFC 6455): the header lines are taken
    apart, and the accept value is made of SHA-1 and Base64. */
module Handshake {
  import opened Bytes
  import Base64
  import Base64Spec
  import Sha1
  import Sha1Spec

  type Text = seq<byte>
  type Headers = map<Text, Text>

  function Ascii(s: string): (t: Text)
    requires forall i :: 0 <= i < |s| ==> s[i] as int < 128
    ensures |t| == |s|
  {
    seq(|s|, i requires 0 <= i < |s| => ByteOf(s[i] as int))
  }

  const CR: byte := 13
  const COLON: byte := 58
  const END_OF_LINE: Text := [13, 10]
  const END_OF_HEADERS: Text := [13, 10, 13, 10]
  const SEPARATOR: Text := [58, 32]
  const LOWER_VERSION: Text := Ascii("sec-websocket-version")
  const LOWER_KEY: Text := Ascii("sec-websocket-key")
  const LOWER_ADDRESS: Text := Ascii("x-real-ip")
  const GUID: Text := Ascii("258EAFA5-E914-47DA-95CA-C5AB0DC85B11")
  const STATUS_LINE: Text := Ascii("HTTP/1.1 101 Switching Protocols")
  const UPGRADE_LINE: Text := Ascii("Upgrade: websocket")
  const CONNECTION_LINE: Text := Ascii("Connection: Upgrade")
  const ACCEPT_NAME: Text := Ascii("Sec-WebSocket-Accept")
  const KEY_BUFFER: nat := 4096

  // -------------------------------------------------------------------------
  // Finding

  /** Where `pattern` first begins in `s`, or -1. */
  function Find(s: Text, pattern: Text): (at: int)
    ensures -1 <= at && at + |pattern| <= |s| + (if at < 0 then |pattern| else 0)
    ensures at >= 0 ==> pattern <= s[at..]
  {
    if pattern <= s then 0
    else if s == [] then -1
    else
      var at := Find(s[1..], pattern);
      if at < 0 then -1 else at + 1
  }

  /** A pattern whose first byte does not occur before it is found where it stands. */
  lemma {:induction false} FindsFirst(a: Text, pattern: Text, b: Text)
    requires pattern != [] && pattern[0] !in a
    ensures Find(a + pattern + b, pattern) == |a|
  {
    var s := a + pattern + b;
    if a == [] {
      assert s == pattern + b;
    } else {
      assert s[0] == a[0] && s[1..] == a[1..] + pattern + b;
      FindsFirst(a[1..], pattern, b);
    }
  }

  lemma {:induction false} FindsNothing(s: Text, pattern: Text)
    requires pattern != [] && pattern[0] !in s
    ensures Find(s, pattern) == -1
  {
    if s != [] {
      FindsNothing(s[1..], pattern);
    }
  }

  // -------------------------------------------------------------------------
  // Header lines

  function LowerByte(c: byte): byte {
    if 65 <= c <= 90 then c + 32 else c
  }

  function LowerText(s: Text): (t: Text)
    ensures |t| == |s|
  {
    seq(|s|, i requires 0 <= i < |s| => LowerByte(s[i]))
  }

  /** A line with a separator adds or replaces a header. */
  function AddLine(headers: Headers, line: Text): Headers {
    var at := Find(line, SEPARATOR);
    if at < 0 then headers else headers[LowerText(line[..at]) := line[at + 2..]]
  }

  function ParseLines(headers: Headers, s: Text): Headers
    decreases |s|
  {
    var at := Find(s, END_OF_LINE);
    if at < 0 then headers else ParseLines(AddLine(headers, s[..at]), s[at + 2..])
  }

  datatype Field = Field(name: Text, value: Text)

  /** A field that a client may send: no line ends in it, no colon in its name. */
  predicate Sendable(f: Field) {
    CR !in f.name && COLON !in f.name && CR !in f.value
  }

  function RenderField(f: Field): Text {
    f.name + SEPARATOR + f.value
  }

  function RenderFields(fields: seq<Field>): Text {
    if fields == [] then END_OF_LINE else RenderField(fields[0]) + END_OF_LINE + RenderFields(fields[1..])
  }

  /** The last of the fields of a name counts; letter case in names does not. */
  function Meaning(headers: Headers, fields: seq<Field>): Headers
    decreases |fields|
  {
    if fields == [] then headers
    else Meaning(headers[LowerText(fields[0].name) := fields[0].value], fields[1..])
  }

  lemma LineMeans(headers: Headers, f: Field)
    requires Sendable(f)
    ensures AddLine(headers, RenderField(f)) == headers[LowerText(f.name) := f.value]
    ensures CR !in RenderField(f)
  {
    FindsFirst(f.name, SEPARATOR, f.value);
    var line := RenderField(f);
    assert line[..|f.name|] == f.name && line[|f.name| + 2..] == f.value;
  }

  lemma OneLine(headers: Headers, line: Text, rest: Text)
    requires CR !in line
    ensures ParseLines(headers, line + END_OF_LINE + rest) == ParseLines(AddLine(headers, line), rest)
  {
    hide AddLine;
    FindsFirst(line, END_OF_LINE, rest);
    var s := line + END_OF_LINE + rest;
    assert s[..|line|] == line && s[|line| + 2..] == rest;
  }

  /** What is parsed is what was sent. */
  lemma {:induction false} FieldsMean(headers: Headers, fields: seq<Field>)
    requires forall i :: 0 <= i < |fields| ==> Sendable(fields[i])
    ensures ParseLines(headers, RenderFields(fields)) == Meaning(headers, fields)
    decreases |fields|
  {
    hide AddLine, RenderField, ParseLines, Sendable;
    if fields == [] {
      NoMoreLines(headers);
    } else {
      var f := fields[0];
      LineMeans(headers, f);
      OneLine(headers, RenderField(f), RenderFields(fields[1..]));
      FieldsMean(headers[LowerText(f.name) := f.value], fields[1..]);
    }
  }

  lemma NoMoreLines(headers: Headers)
    ensures ParseLines(headers, END_OF_LINE) == headers
  {
    FindsFirst([], END_OF_LINE, []);
    FindsNothing([], SEPARATOR);
    FindsNothing([], END_OF_LINE);
    assert [] + END_OF_LINE + [] == END_OF_LINE;
    assert END_OF_LINE[..0] == [] && END_OF_LINE[2..] == [];
  }

  /** A whole request: a request line without a separator, the fields, an empty line. */
  lemma RequestMeans(line: Text, fields: seq<Field>)
    requires CR !in line && COLON !in line
    requires forall i :: 0 <= i < |fields| ==> Sendable(fields[i])
    ensures ParseLines(map[], line + END_OF_LINE + RenderFields(fields)) == Meaning(map[], fields)
  {
    FindsNothing(line, SEPARATOR);
    OneLine(map[], line, RenderFields(fields));
    FieldsMean(map[], fields);
  }

  // -------------------------------------------------------------------------
  // The accept value and the answer

  /** A key up to its first zero byte, which is as far as formatting it as a C
      string goes. */
  function CString(key: Text): (s: Text)
    ensures |s| <= |key| && s == key[..|s|] && 0 !in s
    ensures |s| < |key| ==> key[|s|] == 0
  {
    if key == [] || key[0] == 0 then [] else [key[0]] + CString(key[1..])
  }

  /** The accept value of section 4.2.2 of RFC 6455. */
  function AcceptValue(key: Text): Text {
    Base64Spec.Encode(Sha1Spec.Digest(key + GUID))
  }

  function Response(value: Text): Text {
    STATUS_LINE + END_OF_LINE + UPGRADE_LINE + END_OF_LINE + CONNECTION_LINE + END_OF_LINE + ACCEPT_NAME + SEPARATOR
    + value + END_OF_HEADERS
  }

  /** What is hashed for a key is what the standard says exactly when the key holds
      no zero byte. */
  lemma HashedTextExactlyWhen(key: Text)
    ensures CString(key) + GUID == key + GUID <==> 0 !in key
  {
    var cut := CString(key);
    if cut + GUID == key + GUID {
      assert |cut + GUID| == |key + GUID|;
      assert cut == key[..|key|];
    } else {
      assert cut != key;
    }
  }

  /** The accept value is the standard's exactly when the hashed texts have the same
      digest; so always for a key without a zero byte. */
  lemma AcceptValueExactlyWhen(key: Text)
    ensures AcceptValue(CString(key)) == AcceptValue(key)
            <==> Sha1Spec.Digest(CString(key) + GUID) == Sha1Spec.Digest(key + GUID)
    ensures 0 !in key ==> AcceptValue(CString(key)) == AcceptValue(key)
  {
    hide Base64Spec.Encode, Base64Spec.Decode, Sha1Spec.Digest, Ascii;
    Base64Spec.RoundTrip(Sha1Spec.Digest(CString(key) + GUID));
    Base64Spec.RoundTrip(Sha1Spec.Digest(key + GUID));
    HashedTextExactlyWhen(key);
  }

  /** The keys "a" and "a", zero, "b" are answered alike. */
  lemma ZeroByteCutsTheKey()
    ensures var key: Text := [97, 0, 98];
            CString(key) == [97] && CString(key) + GUID != key + GUID
  {
    hide Ascii;
    var key: Text := [97, 0, 98];
    assert key[1..] == [0, 98];
    HashedTextExactlyWhen(key);
  }

  datatype Outcome = Incomplete | Bad | Hybi

  method ComputeAccept(key: Text) returns (value: Text)
    requires |CString(key)| + |GUID| < KEY_BUFFER
    ensures value == AcceptValue(CString(key))
  {
    hide Sha1Spec.Digest, Base64Spec.Encode, Ascii;
    var sha := new Sha1.SecureHashAlgorithm();
    var text := CString(key) + GUID;
    sha.Update(text);
    assert [] + text == text;
    var hash := sha.Final();
    var source := new byte[|hash|](i requires 0 <= i < |hash| => hash[i]);
    assert source[..] == hash;
    var dest := new byte[Base64.EncodeLen(|hash|)];
    var n := Base64.ModpB64Encode(dest, source);
    value := dest[..n];
  }

  /** The version and key fields must be there, and the key must not be empty. */
  predicate Acceptable(headers: Headers) {
    LOWER_VERSION in headers && LOWER_KEY in headers && headers[LOWER_KEY] != []
  }

  method ReadLine(headers: Headers, line: Text) returns (more: Headers)
    ensures more == AddLine(headers, line)
  {
    hide Find, LowerText;
    more := headers;
    var at := Find(line, SEPARATOR);
    if at >= 0 {
      more := more[LowerText(line[..at]) := line[at + 2..]];
    }
  }

  method ParseHeaders(input: Text) returns (headers: Headers)
    ensures headers == ParseLines(map[], input)
  {
    hide Find, AddLine, LowerText;
    headers := map[];
    var remainder := input;
    var end := Find(remainder, END_OF_LINE);
    while end >= 0
      invariant end == Find(remainder, END_OF_LINE)
      invariant ParseLines(headers, remainder) == ParseLines(map[], input)
      decreases |remainder|
    {
      var line := remainder[..end];
      headers := ReadLine(headers, line);
      remainder := remainder[end + 2..];
      end := Find(remainder, END_OF_LINE);
    }
  }

  /** The server's answer to what has arrived so far. */
  method Accept(input: Text) returns (outcome: Outcome, output: Text, address: Text)
    requires var headers := ParseLines(map[], input);
             LOWER_KEY in headers ==> |CString(headers[LOWER_KEY])| + |GUID| < KEY_BUFFER
    ensures var headers := ParseLines(map[], input);
            && (outcome == Incomplete <==> Find(input, END_OF_HEADERS) < 0)
            && (outcome == Hybi <==> Find(input, END_OF_HEADERS) >= 0 && Acceptable(headers))
            && (outcome == Hybi ==> output == Response(AcceptValue(CString(headers[LOWER_KEY]))))
            && (outcome == Hybi && 0 !in headers[LOWER_KEY] ==> output == Response(AcceptValue(headers[LOWER_KEY])))
            && (outcome != Incomplete ==> address == if LOWER_ADDRESS in headers then headers[LOWER_ADDRESS] else [])
  {
    hide Ascii, ParseLines, AcceptValue, Response;
    outcome, output, address := Bad, [], [];
    if Find(input, END_OF_HEADERS) < 0 {
      return Incomplete, [], [];
    }
    var headers := ParseHeaders(input);
    if LOWER_ADDRESS in headers {
      address := headers[LOWER_ADDRESS];
    }
    if LOWER_VERSION in headers && LOWER_KEY in headers {
      var key := headers[LOWER_KEY];
      if key != [] {
        var value := ComputeAccept(key);
        AcceptValueExactlyWhen(key);
        output := Response(value);
        outcome := Hybi;
      }
    }
  }
}
