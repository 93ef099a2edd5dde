/** The WebSocket wire format (RFC 6455 section 5.2) as the server reads and writes it.

    The server reads masked client frames and writes unmasked frames. Bytes are
    8-bit vectors, buffers are sequences of them, and lengths are naturals.
 */
module Bytes {
  type byte = bv8

  /** The byte with value `n`. Counting up to it spares the solver the general
      conversion from integers to bit vectors. */
  function ByteOf(n: nat): (b: byte)
    requires n < 256
    ensures b as nat == n
  {
    if n == 0 then 0 else ByteOf(n - 1) + 1
  }

  function Pow256(width: nat): (p: nat)
    ensures p > 0
  {
    if width == 0 then 1 else 256 * Pow256(width - 1)
  }

  /** The natural number whose network-order (big-endian) bytes are `s`. */
  function BigEndian(s: seq<byte>): nat {
    if s == [] then 0 else BigEndian(s[..|s| - 1]) * 256 + s[|s| - 1] as nat
  }

  /** The `width` low-order bytes of `n`, most significant first. */
  function ToBigEndian(n: nat, width: nat): (s: seq<byte>)
    ensures |s| == width
  {
    if width == 0 then [] else ToBigEndian(n / 256, width - 1) + [ByteOf(n % 256)]
  }

  lemma ByteOfByte(b: byte)
    ensures ByteOf(b as nat) == b
  {
  }

  lemma {:induction false} BigEndianRoundTrip(n: nat, width: nat)
    requires n < Pow256(width)
    ensures BigEndian(ToBigEndian(n, width)) == n
  {
    if width > 0 {
      var s := ToBigEndian(n, width);
      BigEndianRoundTrip(n / 256, width - 1);
      assert s[..|s| - 1] == ToBigEndian(n / 256, width - 1);
    }
  }

  lemma TopAndLowDigit(high: nat, low: nat)
    requires low < 256
    ensures (high * 256 + low) / 256 == high && (high * 256 + low) % 256 == low
  {
  }

  lemma ToBigEndianStep(high: nat, low: nat, width: nat)
    requires low < 256
    ensures ToBigEndian(high * 256 + low, width + 1) == ToBigEndian(high, width) + [ByteOf(low)]
  {
    TopAndLowDigit(high, low);
  }

  lemma {:induction false} BigEndianBound(s: seq<byte>)
    ensures BigEndian(s) < Pow256(|s|)
  {
    if s != [] {
      BigEndianBound(s[..|s| - 1]);
    }
  }

  lemma {:induction false} ToBigEndianRoundTrip(s: seq<byte>)
    ensures BigEndian(s) < Pow256(|s|)
    ensures ToBigEndian(BigEndian(s), |s|) == s
  {
    hide ToBigEndian, Pow256, ByteOf;
    BigEndianBound(s);
    if s == [] {
      assert |ToBigEndian(BigEndian(s), 0)| == 0;
    } else {
      var front, last := s[..|s| - 1], s[|s| - 1];
      ToBigEndianRoundTrip(front);
      ByteOfByte(last);
      ToBigEndianStep(BigEndian(front), last as nat, |front|);
      assert s == front + [last];
    }
  }

  /** Digit `k` from the left of a `width`-byte number, as dividing and masking extract it. */
  lemma {:induction false} ToBigEndianDigit(n: nat, width: nat, k: nat)
    requires k < width
    ensures ToBigEndian(n, width)[k] == ByteOf((n / Pow256(width - 1 - k)) % 256)
  {
    if k < width - 1 {
      ToBigEndianDigit(n / 256, width - 1, k);
      DivDiv(n, 256, Pow256(width - 2 - k));
    }
  }

  lemma DivDiv(n: nat, a: nat, b: nat)
    requires a > 0 && b > 0
    ensures a * b > 0 && n / a / b == n / (a * b)
  {
    var q := n / a / b;
    var r := n / a % b;
    assert n / a == q * b + r;
    assert n == (q * b + r) * a + n % a;
    assert (q * b + r) * a == q * (a * b) + r * a by {
      assert (q * b + r) * a == q * b * a + r * a;
      assert q * b * a == q * (a * b);
    }
    var s := r * a + n % a;
    assert s < a * b by {
      assert (r + 1) * a <= b * a;
    }
    assert 0 <= s by {
      assert 0 <= r * a;
    }
    QuotientUnique(n, a * b, q, s);
  }

  lemma QuotientUnique(n: int, d: int, q: int, r: int)
    requires d > 0 && n == q * d + r && 0 <= r < d
    ensures n / d == q
  {
    var k := n / d - q;
    assert k * d == r - n % d;
    assert k >= 1 ==> k * d >= d;
    assert k <= -1 ==> k * d <= -d;
  }

  lemma SliceOfPrefix(a: seq<byte>, b: seq<byte>, i: nat, j: nat)
    requires i <= j <= |a|
    ensures (a + b)[i..j] == a[i..j] && (a + b)[j..] == a[j..] + b
  {
  }

  lemma Associate(a: seq<byte>, b: seq<byte>, c: seq<byte>)
    ensures a + (b + c) == a + b + c
  {
  }

  /** The concatenation of a list of buffers. */
  function Concat(buffers: seq<seq<byte>>): seq<byte> {
    if buffers == [] then [] else buffers[0] + Concat(buffers[1..])
  }

  lemma {:induction false} ConcatAppend(a: seq<seq<byte>>, b: seq<seq<byte>>)
    ensures Concat(a + b) == Concat(a) + Concat(b)
  {
    if a == [] {
      assert a + b == b;
    } else {
      ConcatAppend(a[1..], b);
      assert (a + b)[0] == a[0] && (a + b)[1..] == a[1..] + b;
      Associate(a[0], Concat(a[1..]), Concat(b));
    }
  }
}

module Frames {
  import opened Bytes

  const HEADER_SIZE: nat := 2
  const MASKING_KEY_SIZE: nat := 4
  const SINGLE_BYTE_LENGTH: nat := 125
  const EIGHT_BYTE_LENGTH: nat := 127
  const OPCODE_TEXT: byte := 0x01
  const OPCODE_CLOSE: byte := 0x08
  const OPCODE_PING: byte := 0x09
  const OPCODE_PONG: byte := 0x0A
  const MAX_CLIENT_FRAME: nat := 0x80000

  // -------------------------------------------------------------------------
  // Client frames: what the server reads

  /** What reading one frame from the front of a buffer yields. */
  datatype Verdict =
    | Incomplete
    | Violation
    | CloseRequest
    | Text(payload: seq<byte>, rest: seq<byte>)
    | Ping(payload: seq<byte>, rest: seq<byte>)
    | Pong(rest: seq<byte>)
  {
    predicate Completed() {
      Text? || Ping? || Pong?
    }

    /** The same verdict when `more` follows in the buffer. */
    function Extended(more: seq<byte>): Verdict
      requires !Incomplete?
    {
      match this
      case Text(p, r) => Text(p, r + more)
      case Ping(p, r) => Ping(p, r + more)
      case Pong(r) => Pong(r + more)
      case _ => this
    }
  }

  function Masked(data: seq<byte>, mask: seq<byte>): (r: seq<byte>)
    requires |mask| == MASKING_KEY_SIZE
    ensures |r| == |data|
  {
    seq(|data|, i requires 0 <= i < |data| => data[i] ^ mask[i % 4])
  }

  lemma MaskTwice(data: seq<byte>, mask: seq<byte>)
    requires |mask| == MASKING_KEY_SIZE
    ensures Masked(Masked(data, mask), mask) == data
  {
  }

  function Hint(b2: byte): nat {
    (b2 & 0x7F) as nat
  }

  /** The number of extended-length bytes that a length hint announces. */
  function LengthSize(hint: nat): nat {
    if hint <= SINGLE_BYTE_LENGTH then 0 else if hint == EIGHT_BYTE_LENGTH then 8 else 2
  }

  predicate Readable(opcode: byte) {
    opcode == OPCODE_TEXT || opcode == OPCODE_PING || opcode == OPCODE_PONG
  }

  function PayloadLength(input: seq<byte>, hint: nat): nat
    requires |input| >= HEADER_SIZE + LengthSize(hint)
  {
    if LengthSize(hint) == 0 then hint
    else BigEndian(input[HEADER_SIZE..HEADER_SIZE + LengthSize(hint)])
  }

  /** The frame whose masking key begins at `start`, once its header is accepted. */
  function ParseBody(input: seq<byte>, opcode: byte, start: nat, length: nat): Verdict {
    var data := start + MASKING_KEY_SIZE;
    var end := data + length;
    if |input| < end then Incomplete
    else if opcode == OPCODE_PONG then Pong(input[end..])
    else
      var payload := Masked(input[data..end], input[start..data]);
      if opcode == OPCODE_PING then Ping(payload, input[end..]) else Text(payload, input[end..])
  }

  function Parse(input: seq<byte>): Verdict {
    if |input| < HEADER_SIZE then Incomplete
    else
      var opcode := input[0] & 0x0F;
      var hint := Hint(input[1]);
      var start := HEADER_SIZE + LengthSize(hint);
      if input[1] & 0x80 == 0 then Violation
      else if opcode == OPCODE_CLOSE then CloseRequest
      else if !Readable(opcode) then Violation
      else if |input| < start then Incomplete
      else if PayloadLength(input, hint) > MAX_CLIENT_FRAME then Violation
      else ParseBody(input, opcode, start, PayloadLength(input, hint))
  }

  /** A frame as a client may write it: any FIN and RSV bits, and any length
      form wide enough for the payload. */
  datatype ClientFrame = ClientFrame(b1: byte, hint: nat, mask: seq<byte>, payload: seq<byte>)
  {
    predicate WellFormed() {
      && |mask| == MASKING_KEY_SIZE
      && hint <= EIGHT_BYTE_LENGTH
      && (if hint <= SINGLE_BYTE_LENGTH then |payload| == hint else |payload| < Pow256(LengthSize(hint)))
    }

    function Wire(): seq<byte>
      requires WellFormed()
    {
      [b1, ByteOf(hint) | 0x80] + ToBigEndian(|payload|, LengthSize(hint)) + mask + Masked(payload, mask)
    }

    /** What the server makes of the frame followed by `rest`. */
    function Meaning(rest: seq<byte>): Verdict
    {
      var opcode := b1 & 0x0F;
      if opcode == OPCODE_CLOSE then CloseRequest
      else if !Readable(opcode) || |payload| > MAX_CLIENT_FRAME then Violation
      else if opcode == OPCODE_PONG then Pong(rest)
      else if opcode == OPCODE_PING then Ping(payload, rest)
      else Text(payload, rest)
    }
  }

  lemma SecondByte(hint: nat)
    requires hint <= EIGHT_BYTE_LENGTH
    ensures var b2 := ByteOf(hint) | 0x80; b2 & 0x80 != 0 && Hint(b2) == hint
  {
    var b := ByteOf(hint);
    assert b & 0x7F == b by {
      assert b <= 127;
    }
    assert (b | 0x80) & 0x7F == b & 0x7F;
  }

  lemma SecondByteInverse(b2: byte)
    requires b2 & 0x80 != 0
    ensures Hint(b2) <= EIGHT_BYTE_LENGTH && ByteOf(Hint(b2)) | 0x80 == b2
  {
    assert (b2 & 0x7F) | 0x80 == b2;
  }

  /** Where the parts of a well-formed frame lie. */
  lemma WireParts(f: ClientFrame, rest: seq<byte>)
    requires f.WellFormed()
    ensures var input := f.Wire() + rest;
            var start := HEADER_SIZE + LengthSize(f.hint);
            var end := start + MASKING_KEY_SIZE + |f.payload|;
            && |input| >= end && input[0] == f.b1 && input[1] == ByteOf(f.hint) | 0x80
            && input[HEADER_SIZE..start] == ToBigEndian(|f.payload|, LengthSize(f.hint))
            && input[start..start + MASKING_KEY_SIZE] == f.mask
            && input[start + MASKING_KEY_SIZE..end] == Masked(f.payload, f.mask)
            && input[end..] == rest
  {
  }

  lemma WireLength(f: ClientFrame, rest: seq<byte>)
    requires f.WellFormed()
    ensures var input := f.Wire() + rest;
            && |input| >= HEADER_SIZE + LengthSize(f.hint)
            && Hint(input[1]) == f.hint && input[1] & 0x80 != 0
            && PayloadLength(input, f.hint) == |f.payload|
  {
    WireParts(f, rest);
    SecondByte(f.hint);
    if LengthSize(f.hint) != 0 {
      BigEndianRoundTrip(|f.payload|, LengthSize(f.hint));
    }
  }

  /** Reading undoes writing: a client frame at the front of the buffer yields
      exactly its meaning and leaves exactly what follows it. */
  lemma ParseWire(f: ClientFrame, rest: seq<byte>)
    requires f.WellFormed()
    ensures Parse(f.Wire() + rest) == f.Meaning(rest)
  {
    var input := f.Wire() + rest;
    WireParts(f, rest);
    WireLength(f, rest);
    MaskTwice(f.payload, f.mask);
  }

  /** The client frame that occupies `input` up to the end of a completed frame. */
  function FrameAt(input: seq<byte>): (f: ClientFrame)
    requires Parse(input).Completed()
    ensures |f.payload| <= MAX_CLIENT_FRAME && f.WellFormed()
  {
    var hint := Hint(input[1]);
    var data := HEADER_SIZE + LengthSize(hint) + MASKING_KEY_SIZE;
    var end := data + PayloadLength(input, hint);
    var mask := input[data - MASKING_KEY_SIZE..data];
    LengthField(input, hint);
    ClientFrame(input[0], hint, mask, Masked(input[data..end], mask))
  }

  lemma CompletedShape(input: seq<byte>)
    requires Parse(input).Completed()
    ensures var hint := Hint(input[1]);
            var data := HEADER_SIZE + LengthSize(hint) + MASKING_KEY_SIZE;
            && data + PayloadLength(input, hint) <= |input|
            && Parse(input).rest == input[data + PayloadLength(input, hint)..]
            && FrameAt(input).b1 == input[0] && FrameAt(input).hint == hint
            && ByteOf(hint) | 0x80 == input[1]
  {
    SecondByteInverse(input[1]);
  }

  lemma FrameAtParts(input: seq<byte>)
    requires Parse(input).Completed()
    ensures var f := FrameAt(input);
            var start := HEADER_SIZE + LengthSize(f.hint);
            var data := start + MASKING_KEY_SIZE;
            && data + |f.payload| <= |input|
            && ToBigEndian(|f.payload|, LengthSize(f.hint)) == input[HEADER_SIZE..start]
            && f.mask == input[start..data]
            && Masked(f.payload, f.mask) == input[data..data + |f.payload|]
            && Parse(input).rest == input[data + |f.payload|..]
  {
    var f := FrameAt(input);
    CompletedShape(input);
    var data := HEADER_SIZE + LengthSize(f.hint) + MASKING_KEY_SIZE;
    LengthField(input, f.hint);
    MaskTwice(input[data..data + |f.payload|], f.mask);
  }

  /** Nothing but a well-formed client frame is ever read as a completed one. */
  lemma CompletedIsFrame(input: seq<byte>)
    requires Parse(input).Completed()
    ensures var f := FrameAt(input); var rest := Parse(input).rest;
            input == f.Wire() + rest && Parse(input) == f.Meaning(rest)
  {
    var f := FrameAt(input);
    CompletedShape(input);
    FrameAtParts(input);
    var start := HEADER_SIZE + LengthSize(f.hint);
    Reassemble(input, start, start + MASKING_KEY_SIZE + |f.payload|);
    ParseWire(f, Parse(input).rest);
  }

  lemma LengthField(input: seq<byte>, hint: nat)
    requires |input| >= HEADER_SIZE + LengthSize(hint)
    ensures ToBigEndian(PayloadLength(input, hint), LengthSize(hint)) == input[HEADER_SIZE..HEADER_SIZE + LengthSize(hint)]
    ensures LengthSize(hint) > 0 ==> PayloadLength(input, hint) < Pow256(LengthSize(hint))
  {
    ToBigEndianRoundTrip(input[HEADER_SIZE..HEADER_SIZE + LengthSize(hint)]);
  }

  lemma Reassemble(input: seq<byte>, start: nat, end: nat)
    requires HEADER_SIZE <= start && start + MASKING_KEY_SIZE <= end <= |input|
    ensures input == [input[0], input[1]] + input[HEADER_SIZE..start] + input[start..start + MASKING_KEY_SIZE]
                     + input[start + MASKING_KEY_SIZE..end] + input[end..]
  {
  }

  lemma ParseBodyStable(input: seq<byte>, more: seq<byte>, opcode: byte, start: nat, length: nat)
    requires !ParseBody(input, opcode, start, length).Incomplete?
    ensures ParseBody(input + more, opcode, start, length) == ParseBody(input, opcode, start, length).Extended(more)
  {
    var data := start + MASKING_KEY_SIZE;
    SliceOfPrefix(input, more, start, data);
    SliceOfPrefix(input, more, data, data + length);
  }

  /** A verdict other than "incomplete" is final: more bytes never change it. */
  lemma ParseStable(input: seq<byte>, more: seq<byte>)
    requires !Parse(input).Incomplete?
    ensures Parse(input + more) == Parse(input).Extended(more)
  {
    var whole := input + more;
    assert whole[0] == input[0] && whole[1] == input[1];
    var hint := Hint(input[1]);
    var start := HEADER_SIZE + LengthSize(hint);
    if |input| >= start {
      SliceOfPrefix(input, more, HEADER_SIZE, start);
      var length := PayloadLength(input, hint);
      assert PayloadLength(whole, hint) == length;
      var body := ParseBody(input, input[0] & 0x0F, start, length);
      if !body.Incomplete? {
        ParseBodyStable(input, more, input[0] & 0x0F, start, length);
      }
    }
  }

  /** Every completed frame consumes at least six bytes. */
  lemma FrameConsumes(input: seq<byte>)
    ensures Parse(input).Completed() ==> |Parse(input).rest| + 6 <= |input|
  {
  }

  // -------------------------------------------------------------------------
  // Server frames: what the server writes

  datatype ServerFrame = ServerFrame(opcode: byte, payload: seq<byte>)

  /** The header of an unmasked, unfragmented frame of `length` payload bytes. */
  function ServerHeader(opcode: byte, length: nat): (h: seq<byte>)
    ensures |h| >= 2
  {
    if length <= SINGLE_BYTE_LENGTH then [0x80 | opcode, ByteOf(length)]
    else if length <= 0xFFFF then [0x80 | opcode, 126] + ToBigEndian(length, 2)
    else [0x80 | opcode, 127] + ToBigEndian(length, 8)
  }

  function ServerWire(f: ServerFrame): (w: seq<byte>)
    ensures |w| >= 2
  {
    ServerHeader(f.opcode, |f.payload|) + f.payload
  }

  /** A strict client: it refuses masked frames, fragments, reserved bits and
      any length that is not written in its shortest form. */
  datatype ClientVerdict =
    | Partial
    | Refused
    | Received(frame: ServerFrame, rest: seq<byte>)

  function ClientParse(input: seq<byte>): ClientVerdict {
    if |input| < 2 then Partial
    else if input[0] & 0xF0 != 0x80 || input[1] & 0x80 != 0 then Refused
    else
      var hint := Hint(input[1]);
      var start := 2 + LengthSize(hint);
      if |input| < start then Partial
      else
        var length := PayloadLength(input, hint);
        if (hint == 126 && length <= 125) || (hint == 127 && length <= 0xFFFF) then Refused
        else if |input| < start + length then Partial
        else Received(ServerFrame(input[0] & 0x0F, input[start..start + length]), input[start + length..])
  }

  predicate ServerSendable(f: ServerFrame) {
    f.opcode <= 0x0F && |f.payload| < 0x1_0000_0000
  }

  lemma FirstByte(opcode: byte)
    requires opcode <= 0x0F
    ensures (0x80 | opcode) & 0xF0 == 0x80 && (0x80 | opcode) & 0x0F == opcode
  {
  }

  lemma ShortLengthByte(n: nat)
    requires n <= SINGLE_BYTE_LENGTH
    ensures (ByteOf(n)) & 0x80 == 0 && Hint(ByteOf(n)) == n
  {
    var b := ByteOf(n);
    assert b <= 125;
    assert b & 0x7F == b;
  }

  lemma ServerLengthField(f: ServerFrame, rest: seq<byte>)
    requires ServerSendable(f)
    ensures var input := ServerWire(f) + rest; var hint := Hint(input[1]);
            && input[0] == 0x80 | f.opcode && input[1] & 0x80 == 0
            && |ServerHeader(f.opcode, |f.payload|)| == 2 + LengthSize(hint)
            && PayloadLength(input, hint) == |f.payload|
            && (hint == 126 ==> |f.payload| > 125) && (hint == 127 ==> |f.payload| > 0xFFFF)
  {
    var n := |f.payload|;
    var input := ServerWire(f) + rest;
    if n <= SINGLE_BYTE_LENGTH {
      ShortLengthByte(n);
    } else {
      var size := if n <= 0xFFFF then 2 else 8;
      assert Pow256(2) == 0x1_0000;
      assert Pow256(4) == Pow256(2) * 0x1_0000;
      assert Pow256(8) >= Pow256(4);
      assert input[2..2 + size] == ToBigEndian(n, size);
      BigEndianRoundTrip(n, size);
    }
  }

  /** A strict client reads back exactly the frame the server wrote. */
  lemma ClientParseWire(f: ServerFrame, rest: seq<byte>)
    requires ServerSendable(f)
    ensures ClientParse(ServerWire(f) + rest) == Received(f, rest)
  {
    var input := ServerWire(f) + rest;
    var header := ServerHeader(f.opcode, |f.payload|);
    FirstByte(f.opcode);
    ServerLengthField(f, rest);
    assert input[|header|..|header| + |f.payload|] == f.payload;
    assert input[|header| + |f.payload|..] == rest;
  }

  /** A proper prefix of a server frame leaves the client waiting, never refusing. */
  lemma ClientWaitsOnPrefix(f: ServerFrame, n: nat)
    requires ServerSendable(f) && n < |ServerWire(f)|
    ensures ClientParse(ServerWire(f)[..n]) == Partial
  {
    var wire := ServerWire(f);
    var part := wire[..n];
    ServerLengthField(f, []);
    assert wire + [] == wire;
    FirstByte(f.opcode);
    if n >= 2 {
      var start := 2 + LengthSize(Hint(wire[1]));
      if n >= start {
        assert wire == part + wire[n..];
        SliceOfPrefix(part, wire[n..], 2, start);
      }
    }
  }

  /** What a strict client has read from a stream: the frames, and whether it
      is waiting for more bytes. */
  datatype ClientView = ClientView(frames: seq<ServerFrame>, refused: bool)

  function ClientDecode(input: seq<byte>): ClientView
    decreases |input|
  {
    match ClientParse(input)
    case Partial => ClientView([], false)
    case Refused => ClientView([], true)
    case Received(f, rest) =>
      var later := ClientDecode(rest);
      ClientView([f] + later.frames, later.refused)
  }

  function WireAll(frames: seq<ServerFrame>): seq<byte> {
    if frames == [] then [] else ServerWire(frames[0]) + WireAll(frames[1..])
  }

  lemma {:induction false} WireAllAppend(a: seq<ServerFrame>, b: seq<ServerFrame>)
    ensures WireAll(a + b) == WireAll(a) + WireAll(b)
  {
    if a == [] {
      assert a + b == b;
    } else {
      var first, later := ServerWire(a[0]), a[1..];
      assert (a + b)[0] == a[0] && (a + b)[1..] == later + b;
      WireAllAppend(later, b);
      Associate(first, WireAll(later), WireAll(b));
    }
  }

  lemma ClientDecodeCons(f: ServerFrame, later: seq<byte>)
    requires ServerSendable(f)
    ensures var view := ClientDecode(later);
            ClientDecode(ServerWire(f) + later) == ClientView([f] + view.frames, view.refused)
  {
    ClientParseWire(f, later);
  }

  /** The client that has received `n` bytes of these frames has read a prefix of
      them, has refused nothing, and misses only frames not yet complete. */
  ghost predicate ReadsPrefix(view: ClientView, frames: seq<ServerFrame>, n: nat) {
    && view.frames <= frames && !view.refused
    && |WireAll(view.frames)| <= n
    && (|view.frames| < |frames| ==> n < |WireAll(view.frames)| + |ServerWire(frames[|view.frames|])|)
  }

  lemma ReadsPrefixCons(f: ServerFrame, view: ClientView, frames: seq<ServerFrame>, n: nat)
    requires ReadsPrefix(view, frames, n)
    ensures ReadsPrefix(ClientView([f] + view.frames, view.refused), [f] + frames, |ServerWire(f)| + n)
  {
    assert ([f] + view.frames)[1..] == view.frames;
    assert |view.frames| < |frames| ==> ([f] + frames)[|view.frames| + 1] == frames[|view.frames|];
  }

  /** Whatever prefix of the stream has arrived, a strict client reads a prefix
      of the frames. */
  lemma {:induction false} ClientReadsPrefix(frames: seq<ServerFrame>, n: nat)
    requires forall f :: f in frames ==> ServerSendable(f)
    requires n <= |WireAll(frames)|
    ensures ReadsPrefix(ClientDecode(WireAll(frames)[..n]), frames, n)
    decreases |frames|
  {
    if frames != [] {
      var first, later := ServerWire(frames[0]), WireAll(frames[1..]);
      if n < |first| {
        assert WireAll(frames)[..n] == first[..n];
        ClientWaitsOnPrefix(frames[0], n);
      } else {
        var m := n - |first|;
        assert WireAll(frames)[..n] == first + later[..m];
        ClientDecodeCons(frames[0], later[..m]);
        ClientReadsPrefix(frames[1..], m);
        ReadsPrefixCons(frames[0], ClientDecode(later[..m]), frames[1..], m);
        assert [frames[0]] + frames[1..] == frames;
      }
    }
  }
}
