/** The wire formats and limits in plain numbers: which bytes are a frame, which
    text is a message, and what a message makes the server do. */
module WireLaws {
  import opened Bytes
  import opened Frames
  import opened Streams
  import opened Connections

  // -------------------------------------------------------------------------
  // Frames from a client

  /** A masked length in its shortest form: seven bits, or a mark and two or eight bytes. */
  function MaskedLength(n: nat): seq<byte>
    requires n < 0x1_0000_0000
  {
    if n <= 125 then [ByteOf(128 + n)]
    else if n <= 65535 then [254, ByteOf(n / 256), ByteOf(n % 256)]
    else [255, 0, 0, 0, 0, ByteOf(n / 0x100_0000), ByteOf(n / 0x1_0000 % 256), ByteOf(n / 256 % 256), ByteOf(n % 256)]
  }

  lemma OneDigit(n: nat, k: nat)
    ensures ToBigEndian(n, k + 1) == ToBigEndian(n / 256, k) + [ByteOf(n % 256)]
  {
    hide ByteOf;
  }

  lemma Quarters(n: nat)
    requires n < 0x1_0000_0000
    ensures n / 256 / 256 == n / 0x1_0000 && n / 0x1_0000 / 256 == n / 0x100_0000 && n / 0x100_0000 / 256 == 0
    ensures n / 0x100_0000 % 256 == n / 0x100_0000
  {
  }

  lemma FourOfEight(n: nat)
    requires n < 0x1_0000_0000
    ensures ToBigEndian(n, 8)
         == [0, 0, 0, 0, ByteOf(n / 0x100_0000), ByteOf(n / 0x1_0000 % 256), ByteOf(n / 256 % 256), ByteOf(n % 256)]
  {
    hide ByteOf, ToBigEndian;
    Quarters(n);
    OneDigit(n, 7);
    OneDigit(n / 256, 6);
    OneDigit(n / 0x1_0000, 5);
    OneDigit(n / 0x100_0000, 4);
    NoDigits();
  }

  lemma TwoOfTwo(n: nat)
    requires n < 0x1_0000
    ensures ToBigEndian(n, 2) == [ByteOf(n / 256), ByteOf(n % 256)]
  {
    hide ByteOf, ToBigEndian;
    SmallHigh(n);
    TwoBytes(n);
  }

  lemma SmallHigh(n: nat)
    requires n < 0x1_0000
    ensures n / 256 < 256 && n / 256 % 256 == n / 256
  {
  }

  lemma Three(mark: byte, a: byte, b: byte)
    ensures [mark] + [a, b] == [mark, a, b]
  {
  }

  lemma Nine(mark: byte, a: byte, b: byte, c: byte, d: byte)
    ensures [mark] + [0, 0, 0, 0, a, b, c, d] == [mark, 0, 0, 0, 0, a, b, c, d]
  {
  }

  lemma NoDigits()
    ensures ToBigEndian(0, 4) == [0, 0, 0, 0]
  {
    assert ToBigEndian(0, 2) == [0, 0];
    ZeroByte();
  }

  lemma ZeroByte()
    ensures ByteOf(0) == 0
  {
  }

  lemma MarkedBytes(n: nat)
    requires n < 128
    ensures ByteOf(n) | 0x80 == ByteOf(128 + n)
    ensures ByteOf(126) | 0x80 == 254 && ByteOf(127) | 0x80 == 255
  {
  }

  function FrameFor(b1: byte, mask: seq<byte>, payload: seq<byte>): ClientFrame {
    ClientFrame(b1, HintFor(|payload|), mask, payload)
  }

  function HintFor(n: nat): nat {
    if n <= 125 then n else if n <= 65535 then 126 else 127
  }

  lemma MarkedField(n: nat)
    requires n < 0x1_0000_0000
    ensures 125 < n <= 65535 ==> [254] + ToBigEndian(n, 2) == MaskedLength(n)
    ensures 65535 < n ==> [255] + ToBigEndian(n, 8) == MaskedLength(n)
  {
    hide ByteOf, ToBigEndian;
    if n > 65535 {
      FourOfEight(n);
      Nine(255, ByteOf(n / 0x100_0000), ByteOf(n / 0x1_0000 % 256), ByteOf(n / 256 % 256), ByteOf(n % 256));
    } else if n > 125 {
      TwoOfTwo(n);
      Three(254, ByteOf(n / 256), ByteOf(n % 256));
    }
  }

  lemma LengthBytes(n: nat)
    requires n < 0x1_0000_0000
    ensures [ByteOf(HintFor(n)) | 0x80] + ToBigEndian(n, LengthSize(HintFor(n))) == MaskedLength(n)
  {
    hide ByteOf, ToBigEndian;
    MarkedBytes(if n <= 125 then n else 0);
    NoLength(n);
    MarkedField(n);
  }

  lemma WireBytes(b1: byte, mask: seq<byte>, payload: seq<byte>, data: seq<byte>)
    requires |mask| == 4 && |payload| < 0x1_0000_0000
    requires |data| == |payload| && forall i :: 0 <= i < |data| ==> data[i] == payload[i] ^ mask[i % 4]
    ensures var f := FrameFor(b1, mask, payload);
            f.WellFormed() && f.Wire() == [b1] + MaskedLength(|payload|) + mask + data
  {
    hide ByteOf, ToBigEndian, MaskedLength, Pow256;
    var n := |payload|;
    Capacities();
    assert Masked(payload, mask) == data;
    LengthBytes(n);
    var second, field := ByteOf(HintFor(n)) | 0x80, ToBigEndian(n, LengthSize(HintFor(n)));
    assert [b1, second] + field == [b1] + ([second] + field);
  }

  lemma NoLength(n: nat)
    ensures ToBigEndian(n, 0) == []
  {
  }

  lemma Capacities()
    ensures Pow256(2) == 0x1_0000 && Pow256(8) > 0x1_0000_0000
  {
    assert Pow256(4) == 0x1_0000_0000;
    assert Pow256(6) == 0x1_0000_0000 * 0x1_0000;
  }

  /** Opcode 1 is text, 9 a ping, 10 a pong and 8 a close; every other is refused,
      and so is a payload of more than 524288 bytes, unless it is a close. */
  lemma FrameLaw(b1: byte, mask: seq<byte>, payload: seq<byte>, data: seq<byte>, rest: seq<byte>)
    requires |mask| == 4 && |payload| < 0x1_0000_0000
    requires |data| == |payload| && forall i :: 0 <= i < |data| ==> data[i] == payload[i] ^ mask[i % 4]
    ensures var opcode := b1 & 15;
            Parse([b1] + MaskedLength(|payload|) + mask + data + rest)
            == if opcode == 8 then CloseRequest
               else if |payload| > 524288 then Violation
               else if opcode == 1 then Text(payload, rest)
               else if opcode == 9 then Ping(payload, rest)
               else if opcode == 10 then Pong(rest)
               else Violation
  {
    WireBytes(b1, mask, payload, data);
    ParseWire(FrameFor(b1, mask, payload), rest);
  }

  /** A second byte below 128 is unmasked and refused; fewer than two bytes decide nothing. */
  lemma UnmaskedLaw(input: seq<byte>)
    ensures |input| < 2 ==> Parse(input) == Incomplete
    ensures |input| >= 2 && input[1] < 128 ==> Parse(input) == Violation
  {
    if |input| >= 2 {
      var b := input[1];
      assert b < 128 ==> b & 0x80 == 0;
    }
  }

  /** As long as a byte of an acceptable frame is missing, the server waits. */
  lemma WaitsForAll(f: ClientFrame, n: nat)
    requires f.WellFormed() && f.Meaning([]).Completed() && n < |f.Wire()|
    ensures Parse(f.Wire()[..n]) == Incomplete
  {
    hide Parse;
    var wire := f.Wire();
    var part, more := wire[..n], wire[n..];
    assert part + more == wire && wire + [] == wire;
    ParseWire(f, []);
    if !Parse(part).Incomplete? {
      ParseStable(part, more);
    }
  }

  /** The masked "Hello" of section 5.7 of RFC 6455. */
  lemma HelloIsRead(rest: seq<byte>)
    ensures Parse([0x81, 0x85, 0x37, 0xfa, 0x21, 0x3d, 0x7f, 0x9f, 0x4d, 0x51, 0x58] + rest)
         == Text([0x48, 0x65, 0x6c, 0x6c, 0x6f], rest)
  {
    var mask: seq<byte> := [0x37, 0xfa, 0x21, 0x3d];
    var payload: seq<byte> := [0x48, 0x65, 0x6c, 0x6c, 0x6f];
    var data: seq<byte> := [0x7f, 0x9f, 0x4d, 0x51, 0x58];
    FrameLaw(0x81, mask, payload, data, rest);
    FiveBytes();
    assert [0x81] + MaskedLength(5) + mask + data == [0x81, 0x85, 0x37, 0xfa, 0x21, 0x3d, 0x7f, 0x9f, 0x4d, 0x51, 0x58];
  }

  lemma FiveBytes()
    ensures MaskedLength(5) == [0x85]
  {
  }

  // -------------------------------------------------------------------------
  // Frames to a client

  function PlainLength(n: nat): seq<byte>
    requires n < 0x1_0000_0000
  {
    if n <= 125 then [ByteOf(n)]
    else if n <= 65535 then [126, ByteOf(n / 256), ByteOf(n % 256)]
    else [127, 0, 0, 0, 0, ByteOf(n / 0x100_0000), ByteOf(n / 0x1_0000 % 256), ByteOf(n / 256 % 256), ByteOf(n % 256)]
  }

  /** FIN and the opcode, the unmasked length in its shortest form, the payload. */
  lemma SentBytes(opcode: byte, payload: seq<byte>)
    requires |payload| < 0x1_0000_0000
    ensures ServerWire(ServerFrame(opcode, payload)) == [128 | opcode] + PlainLength(|payload|) + payload
  {
    hide ByteOf, ToBigEndian;
    PlainHeader(opcode, |payload|);
  }

  lemma PlainField(n: nat)
    requires n < 0x1_0000_0000
    ensures 125 < n <= 65535 ==> [126] + ToBigEndian(n, 2) == PlainLength(n)
    ensures 65535 < n ==> [127] + ToBigEndian(n, 8) == PlainLength(n)
  {
    hide ByteOf, ToBigEndian;
    if n > 65535 {
      FourOfEight(n);
      Nine(127, ByteOf(n / 0x100_0000), ByteOf(n / 0x1_0000 % 256), ByteOf(n / 256 % 256), ByteOf(n % 256));
    } else if n > 125 {
      TwoOfTwo(n);
      Three(126, ByteOf(n / 256), ByteOf(n % 256));
    }
  }

  lemma Regrouped(a: byte, b: byte, t: seq<byte>)
    ensures [a, b] + t == [a] + ([b] + t)
  {
  }

  lemma PlainHeader(opcode: byte, n: nat)
    requires n < 0x1_0000_0000
    ensures ServerHeader(opcode, n) == [128 | opcode] + PlainLength(n)
  {
    hide ByteOf, ToBigEndian;
    var first: byte := 0x80 | opcode;
    if n <= 125 {
      assert [first, ByteOf(n)] == [first] + [ByteOf(n)];
    } else {
      hide PlainLength;
      PlainField(n);
      Regrouped(first, 126, ToBigEndian(n, 2));
      Regrouped(first, 127, ToBigEndian(n, 8));
    }
  }

  /** A text goes out under opcode 1, the answer to a ping under opcode 10. */
  lemma OpcodesSent(payload: seq<byte>)
    requires |payload| < 0x1_0000_0000
    ensures TextFrame(payload) == ServerFrame(1, payload) && PongFrame(payload) == ServerFrame(10, payload)
  {
    assert payload[..|payload|] == payload;
  }

  /** A strict client refuses fragments, reserved bits and masks, and a length that is
      not in its shortest form. */
  lemma StrictClientRefuses(s: seq<byte>)
    requires |s| >= 4
    ensures s[0] < 128 || s[0] >= 144 || s[1] >= 128 ==> ClientDecode(s) == ClientView([], true)
    ensures s[1] == 126 && s[2] == 0 && s[3] <= 125 ==> ClientDecode(s) == ClientView([], true)
  {
    hide PayloadLength;
    HighBits(s[0], s[1]);
    if s[1] == 126 && s[2] == 0 && s[3] <= 125 {
      ShortInTwo(s);
    }
  }

  lemma HighBits(a: byte, b: byte)
    ensures a & 0xF0 == 0x80 <==> 128 <= a < 144
    ensures b & 0x80 == 0 <==> b < 128
  {
  }

  lemma ShortInTwo(s: seq<byte>)
    requires |s| >= 4 && s[1] == 126 && s[2] == 0 && s[3] <= 125
    ensures Hint(s[1]) == 126 && PayloadLength(s, 126) <= 125
  {
    var field := s[2..4];
    assert field == [0, s[3]] && field[..1] == [0] && field[..1][..0] == [];
    assert BigEndian(field) == 256 * BigEndian([0]) + s[3] as nat;
    assert BigEndian([0]) == 0;
  }

  // -------------------------------------------------------------------------
  // Messages

  /** A text of three bytes or more is a message; a shorter one ends the connection. */
  lemma MessageExactlyWhen(f: ClientFrame, rest: seq<byte>)
    requires f.WellFormed() && f.b1 & 15 == 1 && |f.payload| <= 524288
    ensures Ideal(f.Wire() + rest) == Ideal(rest).After([Message(f.payload)]) <==> |f.payload| >= 3
    ensures |f.payload| < 3 ==> Ideal(f.Wire() + rest) == Reading([], MessageTooShort)
  {
    hide Parse, Ideal;
    ParseWire(f, rest);
    assert Parse(f.Wire() + rest) == Text(f.payload, rest);
    IdealStep(f.Wire() + rest);
    assert ([Message(f.payload)] + Ideal(rest).events)[0] == Message(f.payload);
  }

  lemma ControlIsRead(f: ClientFrame, rest: seq<byte>)
    requires f.WellFormed() && |f.payload| <= 524288
    ensures f.b1 & 15 == 9 ==> Ideal(f.Wire() + rest) == Ideal(rest).After([Pinged(f.payload)])
    ensures f.b1 & 15 == 10 ==> Ideal(f.Wire() + rest) == Ideal(rest).After([Ponged])
    ensures f.b1 & 15 == 8 ==> Ideal(f.Wire() + rest) == Reading([], ClosedByClient)
    ensures f.b1 & 15 !in {1, 8, 9, 10} ==> Ideal(f.Wire() + rest) == Reading([], ProtocolError)
  {
    hide Parse;
    ParseWire(f, rest);
  }

  /** One read event handles at most nine frames; all of them exactly if there are no
      more and no ping or pong comes before the last. */
  lemma NineFrames(buffer: seq<byte>)
    ensures var all := Ideal(buffer).events;
            && |HandleFrames(buffer, FRAMES_PER_EVENT).events| <= 9
            && (HandleFrames(buffer, FRAMES_PER_EVENT).events == all
                <==> |all| <= 9 && forall i :: 0 <= i < |all| - 1 ==> all[i].Message?)
  {
    hide HandleFrames, Ideal;
    DeliversAllExactlyWhen(buffer, 9);
    AtMost(buffer, 9);
  }

  lemma {:induction false} AtMost(buffer: seq<byte>, budget: nat)
    ensures |HandleFrames(buffer, budget).events| <= budget
    decreases budget
  {
    hide Parse;
    if budget > 0 && Parse(buffer).Text? {
      AtMost(Parse(buffer).rest, budget - 1);
    }
  }

  /** A buffer of more than a mebibyte ends the connection when more arrives. */
  lemma OverflowLaw(s: ReadState, chunk: seq<byte>)
    requires !s.Hung()
    ensures ReadEvent(s, chunk).overflow <==> |s.buffer| > 1048576
  {
  }

  // -------------------------------------------------------------------------
  // What messages make the server do

  const PIN_NAME: seq<byte> := [0x50, 0x49, 0x4e]
  const IDN_NAME: seq<byte> := [0x49, 0x44, 0x4e]
  const NATIVE_NAMES: set<seq<byte>> := {[0x46, 0x4b, 0x53], [0x5a, 0x5a, 0x5a], [0x56, 0x41, 0x52]}

  /** The queue after texts were offered one by one: at most 151 buffers wait. */
  ghost predicate Queued(queue: seq<seq<byte>>, texts: seq<seq<byte>>, after: seq<seq<byte>>) {
    var room := if |queue| > 150 then 0 else 151 - |queue|;
    var taken := if |texts| <= room then |texts| else room;
    && |after| == |queue| + taken && after[..|queue|] == queue
    && forall i :: 0 <= i < taken ==> after[|queue| + i] == ServerWire(TextFrame(texts[i]))
  }

  lemma OfferedAreQueued(queue: seq<seq<byte>>, texts: seq<seq<byte>>)
    ensures Queued(queue, texts, OfferAll(queue, texts))
  {
    hide ServerWire, TextFrame;
    OfferAllKeepsFirst(queue, texts);
  }

  predicate Reported(effect: Effect) {
    effect.code != CodeOk
  }

  /** The keep-alive answer does nothing; a login attempt that fails closes; FKS, ZZZ
      and VAR run for everybody; any other command needs a name, and without one it
      only says so and closes; the two worst codes close. */
  lemma CommandLaw(queue: seq<seq<byte>>, message: seq<byte>, identified: bool, effect: Effect)
    requires |message| >= 3
    ensures var name := message[..3];
            var after := Answer(queue, Message(message), identified, effect);
            var closes := AsksToClose(Message(message), identified, effect);
            var fatal := effect.close || effect.code == CodeRequiresIdent || effect.code == CodeFatalInternal;
            if name == PIN_NAME then after == queue && !closes
            else if name == IDN_NAME || name in NATIVE_NAMES || identified then
              && Queued(queue, if Reported(effect) then effect.replies + [effect.errorText] else effect.replies, after)
              && (closes <==> if name == IDN_NAME then effect.close || Reported(effect) else fatal)
            else Queued(queue, [effect.errorText], after) && closes
  {
    hide OfferAll, Queued;
    var replies := Replies(CommandOf(message[..3]), identified, effect);
    OfferedAreQueued(queue, replies);
    OfferNone(queue, []);
  }

  /** A ping is answered by its pong, whatever waits; a pong by nothing. */
  lemma ControlLaw(queue: seq<seq<byte>>, payload: seq<byte>, identified: bool, effect: Effect)
    ensures Answer(queue, Pinged(payload), identified, effect) == queue + [ServerWire(ServerFrame(10, payload))]
    ensures Answer(queue, Ponged, identified, effect) == queue
    ensures !AsksToClose(Pinged(payload), identified, effect) && !AsksToClose(Ponged, identified, effect)
  {
  }
}
