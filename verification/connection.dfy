/** One client connection: its read buffer, its write queue, and the callbacks
    that the event loop runs on them. */
module Connections {
  import opened Bytes
  import opened Frames
  import opened Streams

  const MAX_SEND_QUEUE_ITEMS: nat := 150

  datatype WsResult = ResultOk | ResultError | ResultIncomplete | ResultPingPong | ResultClose

  datatype ReturnCode = CodeOk | CodeRequiresIdent | CodeFatalInternal | CodeOther

  /** What running a command did to this connection: the code it returned, the
      texts it sent, whether it asked for a delayed close, and the text of the
      error message that its code calls for. */
  datatype Effect = Effect(code: ReturnCode, replies: seq<seq<byte>>, close: bool, errorText: seq<byte>)

  /** The outcome of one `recv` call. */
  datatype Recv = RecvBlocked | RecvGone | Data(bytes: seq<byte>)

  /** The outcome of one `send` call; the kernel never takes more than it is offered. */
  datatype SendOutcome = SendBlocked | SendFailed | Took(count: nat)

  datatype Command = PIN | IDN | FKS | ZZZ | VAR | Scripted

  /** The commands that have names of their own here; all others go to the scripts. */
  function CommandOf(name: seq<byte>): Command {
    if name == [0x50, 0x49, 0x4E] then PIN
    else if name == [0x49, 0x44, 0x4E] then IDN
    else if name == [0x46, 0x4B, 0x53] then FKS
    else if name == [0x5A, 0x5A, 0x5A] then ZZZ
    else if name == [0x56, 0x41, 0x52] then VAR
    else Scripted
  }

  function TextFrame(payload: seq<byte>): (f: ServerFrame)
    ensures ServerSendable(f)
  {
    ServerFrame(OPCODE_TEXT, payload[..|payload| % 0x1_0000_0000])
  }

  function PongFrame(payload: seq<byte>): ServerFrame {
    ServerFrame(OPCODE_PONG, payload)
  }

  function PingPayloads(events: seq<Event>): seq<seq<byte>> {
    if events == [] then []
    else (if events[0].Pinged? then [events[0].payload] else []) + PingPayloads(events[1..])
  }

  function PongPayloads(frames: seq<ServerFrame>): seq<seq<byte>> {
    if frames == [] then []
    else (if frames[0].opcode == OPCODE_PONG then [frames[0].payload] else []) + PongPayloads(frames[1..])
  }

  lemma {:induction false} PingPayloadsAppend(a: seq<Event>, e: Event)
    ensures PingPayloads(a + [e]) == PingPayloads(a) + (if e.Pinged? then [e.payload] else [])
  {
    if a == [] {
      assert [e][1..] == [];
    } else {
      PingPayloadsAppend(a[1..], e);
      assert (a + [e])[0] == a[0] && (a + [e])[1..] == a[1..] + [e];
    }
  }

  lemma {:induction false} PongPayloadsAppend(a: seq<ServerFrame>, f: ServerFrame)
    ensures PongPayloads(a + [f]) == PongPayloads(a) + (if f.opcode == OPCODE_PONG then [f.payload] else [])
  {
    if a == [] {
      assert [f][1..] == [];
    } else {
      PongPayloadsAppend(a[1..], f);
      assert (a + [f])[0] == a[0] && (a + [f])[1..] == a[1..] + [f];
    }
  }

  lemma TextIsNoPong(frames: seq<ServerFrame>, payload: seq<byte>)
    ensures PongPayloads(frames + [TextFrame(payload)]) == PongPayloads(frames)
  {
    PongPayloadsAppend(frames, TextFrame(payload));
  }

  lemma ConcatSnoc(queue: seq<seq<byte>>, message: seq<byte>)
    ensures Concat(queue + [message]) == Concat(queue) + message
  {
    ConcatAppend(queue, [message]);
    assert Concat([message]) == message + [];
  }

  lemma UnsentSnoc(written: seq<byte>, queue: seq<seq<byte>>, position: nat, message: seq<byte>)
    requires position <= |Concat(queue)|
    ensures position <= |Concat(queue + [message])|
    ensures written + Concat(queue + [message])[position..] == written + Concat(queue)[position..] + message
  {
    ConcatSnoc(queue, message);
    SliceOfPrefix(Concat(queue), message, 0, position);
    Associate(written, Concat(queue)[position..], message);
  }

  /** The unsent bytes, cut after the next `count` bytes of the front buffer. */
  lemma QueueSplit(queue: seq<seq<byte>>, position: nat, count: nat)
    requires queue != [] && position + count <= |queue[0]|
    ensures position + count <= |Concat(queue)|
    ensures Concat(queue)[position..] == queue[0][position..position + count] + Concat(queue)[position + count..]
    ensures position + count == |queue[0]| ==> Concat(queue)[position + count..] == Concat(queue[1..])
  {
  }

  lemma WireAllSnoc(frames: seq<ServerFrame>, f: ServerFrame)
    ensures WireAll(frames + [f]) == WireAll(frames) + ServerWire(f)
  {
    WireAllAppend(frames, [f]);
    assert WireAll([f]) == ServerWire(f) + [];
  }

  function AcceptedBytes(early: seq<ServerFrame>, greeting: seq<byte>, frames: seq<ServerFrame>): seq<byte> {
    WireAll(early) + greeting + WireAll(frames)
  }

  lemma AcceptedSnoc(early: seq<ServerFrame>, greeting: seq<byte>, frames: seq<ServerFrame>, f: ServerFrame)
    ensures AcceptedBytes(early, greeting, frames + [f]) == AcceptedBytes(early, greeting, frames) + ServerWire(f)
    ensures greeting == [] && frames == []
            ==> AcceptedBytes(early + [f], greeting, frames) == AcceptedBytes(early, greeting, frames) + ServerWire(f)
  {
    WireAllSnoc(frames, f);
    Associate(WireAll(early) + greeting, WireAll(frames), ServerWire(f));
    if greeting == [] && frames == [] {
      WireAllSnoc(early, f);
      NothingAfter(WireAll(early));
      NothingAfter(WireAll(early + [f]));
    }
  }

  lemma NothingAfter(a: seq<byte>)
    ensures a + [] + WireAll([]) == a
  {
  }

  lemma ClientReadsWritten(early: seq<ServerFrame>, greeting: seq<byte>, frames: seq<ServerFrame>,
                           written: seq<byte>, unsent: seq<byte>)
    requires written + unsent == AcceptedBytes(early, greeting, frames)
    requires forall f :: f in frames ==> ServerSendable(f)
    ensures var start := |WireAll(early)| + |greeting|;
            |written| >= start ==> ReadsPrefix(ClientDecode(written[start..]), frames, |written| - start)
  {
    hide WireAll, ReadsPrefix, ClientDecode;
    var head := WireAll(early) + greeting;
    if |written| >= |head| {
      TailOfPrefix(head, WireAll(frames), written, unsent);
      ClientReadsPrefix(frames, |written| - |head|);
    }
  }

  lemma TailOfPrefix(head: seq<byte>, tail: seq<byte>, written: seq<byte>, unsent: seq<byte>)
    requires written + unsent == head + tail && |written| >= |head|
    ensures |written| - |head| <= |tail| && written[|head|..] == tail[..|written| - |head|]
  {
    assert written == (head + tail)[..|written|];
  }

  /** The header of a frame, pushed byte by byte. */
  method PushHeader(opcode: byte, length: nat) returns (frame: seq<byte>)
    ensures frame == ServerHeader(opcode, length)
  {
    frame := [0x80 | opcode];
    if length <= SINGLE_BYTE_LENGTH {
      frame := frame + [ByteOf(length)];
    } else if length <= 0xFFFF {
      frame := frame + [126];
      frame := frame + [ByteOf((length / 256) % 256)];
      frame := frame + [ByteOf(length % 256)];
      TwoBytes(length);
    } else {
      frame := frame + [127];
      for i := 0 to 8
        invariant frame == [0x80 | opcode, 127] + ToBigEndian(length, 8)[..i]
      {
        ToBigEndianDigit(length, 8, i);
        frame := frame + [ByteOf((length / Pow256(7 - i)) % 256)];
      }
    }
  }

  lemma TwoBytes(length: nat)
    ensures ToBigEndian(length, 2) == [ByteOf((length / 256) % 256), ByteOf(length % 256)]
  {
    var high := length / 256;
    assert ToBigEndian(high, 1) == ToBigEndian(high / 256, 0) + [ByteOf(high % 256)];
    assert ToBigEndian(length, 2) == ToBigEndian(high, 1) + [ByteOf(length % 256)];
  }

  /** Builds a frame. The server keeps the length in 32 bits, so a payload of
      4 GiB or more is cut to its length modulo 2^32. */
  method SendMessage(opcode: byte, input: seq<byte>) returns (output: seq<byte>)
    ensures output == ServerWire(ServerFrame(opcode, input[..|input| % 0x1_0000_0000]))
  {
    var length := |input| % 0x1_0000_0000;
    var frame := PushHeader(opcode, length);
    output := frame + input[..length];
  }

  /** Unmasks `length` bytes of `input` that follow the four masking bytes at `start`. */
  method Unmask(input: seq<byte>, start: nat, length: nat) returns (output: seq<byte>)
    requires start + MASKING_KEY_SIZE + length <= |input|
    ensures output == Masked(input[start + MASKING_KEY_SIZE..start + MASKING_KEY_SIZE + length],
                             input[start..start + MASKING_KEY_SIZE])
  {
    output := [];
    ghost var data := input[start + MASKING_KEY_SIZE..start + MASKING_KEY_SIZE + length];
    ghost var mask := input[start..start + MASKING_KEY_SIZE];
    for i := 0 to length
      invariant |output| == i
      invariant forall k :: 0 <= k < i ==> output[k] == data[k] ^ mask[k % 4]
    {
      output := output + [input[start + MASKING_KEY_SIZE + i] ^ input[start + i % MASKING_KEY_SIZE]];
    }
  }

  /** Reads a big-endian length of `size` bytes; eight bytes fill 64 bits exactly. */
  method ReadLength(input: seq<byte>, size: nat) returns (length: nat)
    requires HEADER_SIZE + size <= |input|
    ensures length == BigEndian(input[HEADER_SIZE..HEADER_SIZE + size])
  {
    length := 0;
    for i := 0 to size
      invariant length == BigEndian(input[HEADER_SIZE..HEADER_SIZE + i])
    {
      length := length * 256 + input[HEADER_SIZE + i] as nat;
      ghost var field := input[HEADER_SIZE..HEADER_SIZE + i + 1];
      assert field[..|field| - 1] == input[HEADER_SIZE..HEADER_SIZE + i];
    }
  }

  /** Whether a command ends in a delayed close of the connection that sent it. */
  predicate DelaysClose(command: Command, identified: bool, effect: Effect) {
    match command
    case PIN => false
    case IDN => effect.close || effect.code != CodeOk
    case Scripted => !identified || effect.close || effect.code == CodeRequiresIdent || effect.code == CodeFatalInternal
    case _ => effect.close || effect.code == CodeRequiresIdent || effect.code == CodeFatalInternal
  }

  /** The texts that a command makes the server send back, in order. */
  function Replies(command: Command, identified: bool, effect: Effect): seq<seq<byte>> {
    if command.PIN? then []
    else if command.Scripted? && !identified then [effect.errorText]
    else if effect.code == CodeOk then effect.replies
    else effect.replies + [effect.errorText]
  }

  /** The queue of an open connection after it was offered texts one by one. */
  function OfferAll(queue: seq<seq<byte>>, texts: seq<seq<byte>>): seq<seq<byte>>
    decreases |texts|
  {
    if texts == [] then queue
    else
      var before := OfferAll(queue, texts[..|texts| - 1]);
      if |before| > MAX_SEND_QUEUE_ITEMS then before
      else before + [ServerWire(TextFrame(texts[|texts| - 1]))]
  }

  lemma OfferOneMore(queue: seq<seq<byte>>, texts: seq<seq<byte>>, text: seq<byte>)
    ensures var before := OfferAll(queue, texts);
            OfferAll(queue, texts + [text])
            == if |before| > MAX_SEND_QUEUE_ITEMS then before else before + [ServerWire(TextFrame(text))]
  {
    assert (texts + [text])[..|texts|] == texts;
  }

  lemma OfferNone(queue: seq<seq<byte>>, text: seq<byte>)
    ensures OfferAll(queue, []) == queue
    ensures OfferAll(queue, [text])
            == if |queue| > MAX_SEND_QUEUE_ITEMS then queue else queue + [ServerWire(TextFrame(text))]
  {
    OfferOneMore(queue, [], text);
    assert [] + [text] == [text];
  }

  /** How many of `n` texts a queue of this length still accepts. */
  function Room(length: nat, n: nat): nat {
    if length > MAX_SEND_QUEUE_ITEMS then 0
    else if n <= MAX_SEND_QUEUE_ITEMS + 1 - length then n
    else MAX_SEND_QUEUE_ITEMS + 1 - length
  }

  function TextWires(texts: seq<seq<byte>>): (wires: seq<seq<byte>>)
    ensures |wires| == |texts|
  {
    seq(|texts|, i requires 0 <= i < |texts| => ServerWire(TextFrame(texts[i])))
  }

  /** Refusal drops whole frames, and only from the end: the texts accepted are
      the first ones, as many as the bound leaves room for. */
  lemma {:induction false} OfferAllKeepsFirst(queue: seq<seq<byte>>, texts: seq<seq<byte>>)
    ensures OfferAll(queue, texts) == queue + TextWires(texts[..Room(|queue|, |texts|)])
    decreases |texts|
  {
    hide ServerWire, TextFrame;
    if texts == [] {
      assert queue + TextWires([]) == queue;
    } else {
      var shorter := texts[..|texts| - 1];
      OfferAllKeepsFirst(queue, shorter);
      var k, m := Room(|queue|, |texts|), Room(|queue|, |shorter|);
      if k == m {
        assert texts[..k] == shorter[..m];
      } else {
        assert k == |texts| && m == |shorter| && shorter[..m] == shorter && texts[..k] == texts;
        assert TextWires(texts) == TextWires(shorter) + [ServerWire(TextFrame(texts[|texts| - 1]))];
      }
    }
  }

  /** What handling one event adds to the queue of an open connection. */
  function Answer(queue: seq<seq<byte>>, e: Event, identified: bool, effect: Effect): seq<seq<byte>> {
    match e
    case Message(p) =>
      if |p| < SHORTEST_MESSAGE then queue else OfferAll(queue, Replies(CommandOf(p[..3]), identified, effect))
    case Pinged(p) => queue + [ServerWire(PongFrame(p))]
    case Ponged => queue
  }

  /** Reading a ping queues its pong at once; reading anything else queues nothing. */
  function WithPong(queue: seq<seq<byte>>, v: Verdict): seq<seq<byte>> {
    if v.Ping? then queue + [ServerWire(PongFrame(v.payload))] else queue
  }

  /** The same for a list of events; `effects(k)` belongs to the k-th event. */
  function AnswerAll(queue: seq<seq<byte>>, events: seq<Event>, identified: bool, effects: nat -> Effect): seq<seq<byte>>
    decreases |events|
  {
    if events == [] then queue
    else
      var last := |events| - 1;
      Answer(AnswerAll(queue, events[..last], identified, effects), events[last], identified, effects(last))
  }

  predicate AsksToClose(e: Event, identified: bool, effect: Effect) {
    e.Message? && |e.payload| >= SHORTEST_MESSAGE && DelaysClose(CommandOf(e.payload[..3]), identified, effect)
  }

  predicate AnyAsksToClose(events: seq<Event>, identified: bool, effects: nat -> Effect) {
    exists i :: 0 <= i < |events| && AsksToClose(events[i], identified, effects(i))
  }

  lemma AnswerOneMore(queue: seq<seq<byte>>, events: seq<Event>, e: Event, identified: bool, effects: nat -> Effect)
    ensures AnswerAll(queue, events + [e], identified, effects)
            == Answer(AnswerAll(queue, events, identified, effects), e, identified, effects(|events|))
    ensures AnyAsksToClose(events + [e], identified, effects)
            <==> AnyAsksToClose(events, identified, effects) || AsksToClose(e, identified, effects(|events|))
  {
    var more := events + [e];
    assert more[..|events|] == events && more[|events|] == e;
    if AnyAsksToClose(events, identified, effects) {
      var i :| 0 <= i < |events| && AsksToClose(events[i], identified, effects(i));
      assert more[i] == events[i];
    }
  }

  /** What a connection has queued, and whether its delayed close is pending. */
  datatype Outbox = Outbox(queue: seq<seq<byte>>, closing: bool)

  /** `after` is `before` with the answers to these events queued; a delayed close
      is pending if one already was or one of the events asks for it. */
  predicate Answers(before: Outbox, events: seq<Event>, identified: bool, effects: nat -> Effect, after: Outbox) {
    && after.queue == AnswerAll(before.queue, events, identified, effects)
    && after.closing == (before.closing || AnyAsksToClose(events, identified, effects))
  }

  /** The same for what one frame brings: at most one event. */
  predicate Answered(before: Outbox, events: seq<Event>, identified: bool, effect: Effect, after: Outbox) {
    if events == [] then after == before
    else
      && |events| == 1
      && after.queue == Answer(before.queue, events[0], identified, effect)
      && after.closing == (before.closing || AsksToClose(events[0], identified, effect))
  }

  lemma AnsweredMessage(before: Outbox, message: seq<byte>, identified: bool, effect: Effect, after: Outbox)
    requires |message| >= SHORTEST_MESSAGE
    requires var command := CommandOf(message[..3]);
             && after.queue == OfferAll(before.queue, Replies(command, identified, effect))
             && after.closing == (before.closing || DelaysClose(command, identified, effect))
    ensures Answered(before, [Message(message)], identified, effect, after)
  {
  }

  lemma AnsweredControl(before: Outbox, v: Verdict, identified: bool, effect: Effect)
    requires v.Ping? || v.Pong?
    ensures Answered(before, [EventOf(v)], identified, effect, Outbox(WithPong(before.queue, v), before.closing))
    ensures EventOf(v) == if v.Ping? then Pinged(v.payload) else Ponged
  {
  }

  lemma AnsweredNothing(before: Outbox, v: Verdict, identified: bool, effect: Effect)
    requires !v.Ping? && !v.Pong?
    ensures Answered(before, [], identified, effect, before) && WithPong(before.queue, v) == before.queue
  {
  }

  lemma AnswersNone(before: Outbox, identified: bool, effects: nat -> Effect)
    ensures Answers(before, [], identified, effects, before)
  {
  }

  lemma AnswersNext(before: Outbox, done: seq<Event>, middle: Outbox, events: seq<Event>, after: Outbox,
                    identified: bool, effects: nat -> Effect)
    requires Answers(before, done, identified, effects, middle)
    requires Answered(middle, events, identified, effects(|done|), after)
    ensures Answers(before, done + events, identified, effects, after)
  {
    if events == [] {
      assert done + events == done;
    } else {
      AnswerOneMore(before.queue, done, events[0], identified, effects);
      assert done + events == done + [events[0]];
    }
  }

  /** How many bytes the k-th buffer of a queue still has to offer. */
  function Offered(queue: seq<seq<byte>>, position: nat, k: nat): (n: int)
    requires k < |queue|
  {
    if k == 0 then |queue[0]| - position else |queue[k]|
  }

  /** The first k buffers were each taken whole. */
  ghost predicate TookWhole(queue: seq<seq<byte>>, position: nat, kernel: (nat, int) -> SendOutcome, k: nat)
    requires k <= |queue|
  {
    forall j | 0 <= j < k :: var n := Offered(queue, position, j);
      n > 0 && kernel(j, n).Took? && kernel(j, n).count >= n
  }

  class Connection {
    var readBuffer: seq<byte>
    var writeQueue: seq<seq<byte>>
    var writePosition: nat
    var upgraded: bool
    var identified: bool
    var closed: bool
    var delayClose: bool
    var readArmed: bool
    var writeArmed: bool

    // What the peer has sent since the upgrade, and what was made of it.
    ghost var taken: seq<byte>
    ghost var handled: seq<Event>
    ghost var stop: Stop
    ghost var overflow: bool

    // What was accepted for sending, in order, and the bytes the kernel took.
    ghost var early: seq<ServerFrame>
    ghost var greeting: seq<byte>
    ghost var frames: seq<ServerFrame>
    ghost var written: seq<byte>

    ghost function View(): ReadState
      reads this`taken, this`readBuffer, this`handled, this`stop, this`overflow
    {
      ReadState(taken, readBuffer, handled, stop, overflow)
    }

    ghost function Accepted(): seq<byte>
      reads this`early, this`greeting, this`frames
    {
      AcceptedBytes(early, greeting, frames)
    }

    ghost function Queued(): Outbox
      reads this`writeQueue, this`delayClose
    {
      Outbox(writeQueue, delayClose)
    }

    ghost predicate QueueValid()
      reads this`writeQueue, this`writePosition, this`writeArmed, this`closed, this`upgraded,
            this`written, this`early, this`greeting, this`frames
    {
      && (writePosition > 0 ==> writeQueue != [] && writePosition < |writeQueue[0]|)
      && writePosition <= |Concat(writeQueue)|
      && (!closed && writeQueue != [] ==> writeArmed)
      && written + Concat(writeQueue)[writePosition..] == Accepted()
      && (forall f :: f in early ==> ServerSendable(f))
      && (forall f :: f in frames ==> ServerSendable(f))
      && (!upgraded ==> greeting == [] && frames == [])
    }

    ghost predicate ReadValid()
      reads this`taken, this`readBuffer, this`handled, this`stop, this`overflow, this`upgraded, this`closed
    {
      && (upgraded ==> Accounts(taken, handled, readBuffer, stop))
      && (!upgraded ==> taken == [] && handled == [] && stop.Continue?)
      && (stop.HangUp? || overflow ==> closed)
    }

    ghost predicate PingsAnswered()
      reads this`frames, this`handled
    {
      PongPayloads(frames) == PingPayloads(handled)
    }

    ghost predicate Valid()
      reads this`writeQueue, this`writePosition, this`writeArmed, this`closed, this`upgraded,
            this`written, this`early, this`greeting, this`frames,
            this`taken, this`readBuffer, this`handled, this`stop, this`overflow
    {
      QueueValid() && ReadValid() && PingsAnswered()
    }

    constructor ()
      ensures Valid() && !upgraded && !closed && readArmed && Accepted() == []
    {
      readBuffer, writeQueue, writePosition := [], [], 0;
      upgraded, identified, closed, delayClose := false, false, false, false;
      readArmed, writeArmed := true, false;
      taken, handled, stop, overflow := [], [], Continue, false;
      early, greeting, frames, written := [], [], [], [];
    }

    /** Queues a buffer whatever the queue length, unless the connection is closed. */
    method Enqueue(message: seq<byte>)
      requires QueueValid() && !closed
      modifies this`writeQueue, this`writeArmed
      ensures writeQueue == old(writeQueue) + [message] && writeArmed
      ensures writePosition > 0 ==> writePosition < |writeQueue[0]|
      ensures writePosition <= |Concat(writeQueue)|
      ensures written + Concat(writeQueue)[writePosition..] == old(Accepted()) + message
    {
      UnsentSnoc(written, writeQueue, writePosition, message);
      writeQueue := writeQueue + [message];
      writeArmed := true;
    }

    /** Queues a frame and logs it, before or after the upgrade. */
    method EnqueueFrame(message: seq<byte>, ghost f: ServerFrame)
      requires QueueValid() && !closed && ServerSendable(f) && message == ServerWire(f)
      modifies this`writeQueue, this`writeArmed, this`early, this`frames
      ensures QueueValid() && writeQueue == old(writeQueue) + [message]
      ensures early == (if upgraded then old(early) else old(early) + [f])
      ensures frames == (if upgraded then old(frames) + [f] else old(frames))
    {
      AcceptedSnoc(early, greeting, frames, f);
      Enqueue(message);
      if upgraded {
        frames := frames + [f];
      } else {
        early := early + [f];
      }
    }

    /** Sends a text message: refused as a whole when closed or when more than 150
        buffers already wait. */
    method Send(payload: seq<byte>) returns (ok: bool)
      requires Valid()
      modifies this`writeQueue, this`writeArmed, this`early, this`frames
      ensures Valid()
      ensures ok <==> !closed && |old(writeQueue)| <= MAX_SEND_QUEUE_ITEMS
      ensures !ok ==> writeQueue == old(writeQueue) && early == old(early) && frames == old(frames)
      ensures ok ==> writeQueue == old(writeQueue) + [ServerWire(TextFrame(payload))]
      ensures ok ==> early == (if upgraded then old(early) else old(early) + [TextFrame(payload)])
      ensures ok ==> frames == (if upgraded then old(frames) + [TextFrame(payload)] else old(frames))
    {
      hide ReadValid, PongPayloads, PingPayloads;
      var message := SendMessage(OPCODE_TEXT, payload);
      if closed || |writeQueue| > MAX_SEND_QUEUE_ITEMS {
        return false;
      }
      TextIsNoPong(frames, payload);
      EnqueueFrame(message, TextFrame(payload));
      ok := true;
    }

    method SetDelayClose()
      modifies this`delayClose, this`readArmed
      ensures delayClose && !readArmed
    {
      delayClose := true;
      readArmed := false;
    }

    method PrepareShutdown()
      modifies this`closed, this`readArmed, this`writeArmed
      ensures closed
      ensures !old(closed) ==> !readArmed && !writeArmed
      ensures old(QueueValid()) ==> QueueValid()
      ensures old(Valid()) ==> Valid()
    {
      if closed {
        return;
      }
      closed := true;
      writeArmed := false;
      readArmed := false;
    }

    method EnqueueGreeting(response: seq<byte>)
      requires QueueValid() && !closed && !upgraded
      modifies this`writeQueue, this`writeArmed, this`greeting, this`upgraded
      ensures QueueValid() && upgraded
      ensures greeting == response && writeQueue == old(writeQueue) + [response]
    {
      assert Accepted() == WireAll(early) + [] + [];
      Enqueue(response);
      greeting := response;
      upgraded := true;
    }

    /** The handshake has succeeded: queue the response, forget the request. */
    method Upgrade(response: seq<byte>)
      requires Valid() && !closed && !upgraded
      modifies this
      ensures Valid() && upgraded && !closed
      ensures View() == FRESH && readBuffer == []
      ensures greeting == response && early == old(early) && frames == [] && written == old(written)
      ensures writeQueue == old(writeQueue) + [response]
    {
      EnqueueGreeting(response);
      readBuffer := [];
      AfterNothing(Ideal([]));
    }

    /** Reads one frame from the front of the buffer; answers a ping itself. */
    method Receive() returns (result: WsResult, output: seq<byte>)
      requires QueueValid() && upgraded && !closed
      modifies this`readBuffer, this`writeQueue, this`writeArmed, this`early, this`frames
      ensures QueueValid() && early == old(early)
      ensures Outcome(Parse(old(readBuffer)), old(readBuffer), result, output)
      ensures var v := Parse(old(readBuffer));
              && frames == (if v.Ping? then old(frames) + [PongFrame(v.payload)] else old(frames))
              && writeQueue == WithPong(old(writeQueue), v)
    {
      hide QueueValid, BigEndian, ParseBody;
      output := [];
      var input := readBuffer;
      if |input| < HEADER_SIZE {
        return ResultIncomplete, output;
      }
      var opcode := input[0] & 0x0F;
      var hint := (input[1] & 0x7F) as nat;
      if input[1] & 0x80 == 0 {
        return ResultError, output;
      }
      if opcode == OPCODE_CLOSE {
        return ResultClose, output;
      } else if opcode != OPCODE_TEXT && opcode != OPCODE_PING && opcode != OPCODE_PONG {
        return ResultError, output;
      }
      var length, size := hint, 0;
      if hint > SINGLE_BYTE_LENGTH {
        size := 2;
        if hint == EIGHT_BYTE_LENGTH {
          size := 8;
        }
        if |input| < HEADER_SIZE + size {
          return ResultIncomplete, output;
        }
        length := ReadLength(input, size);
      }
      if length > MAX_CLIENT_FRAME {
        return ResultError, output;
      }
      result, output := ReceiveBody(opcode, HEADER_SIZE + size, length);
    }

    /** The part of reading that follows the header. */
    method ReceiveBody(opcode: byte, start: nat, length: nat) returns (result: WsResult, output: seq<byte>)
      requires QueueValid() && upgraded && !closed && length <= MAX_CLIENT_FRAME
      modifies this`readBuffer, this`writeQueue, this`writeArmed, this`early, this`frames
      ensures QueueValid() && early == old(early)
      ensures Outcome(ParseBody(old(readBuffer), opcode, start, length), old(readBuffer), result, output)
      ensures var v := ParseBody(old(readBuffer), opcode, start, length);
              && frames == (if v.Ping? then old(frames) + [PongFrame(v.payload)] else old(frames))
              && writeQueue == WithPong(old(writeQueue), v)
    {
      output := [];
      var input := readBuffer;
      var end := start + MASKING_KEY_SIZE + length;
      if |input| < end {
        return ResultIncomplete, output;
      }
      if opcode == OPCODE_PONG {
        readBuffer := input[end..];
        return ResultPingPong, output;
      }
      var payload := Unmask(input, start, length);
      readBuffer := input[end..];
      if opcode == OPCODE_PING {
        SendPong(payload);
        return ResultPingPong, output;
      }
      return ResultOk, payload;
    }

    /** How a verdict on the old buffer shows in the result, the output and the buffer left. */
    ghost predicate Outcome(v: Verdict, before: seq<byte>, result: WsResult, output: seq<byte>)
      reads this`readBuffer
    {
      match v
      case Incomplete => result == ResultIncomplete && readBuffer == before
      case Violation => result == ResultError && readBuffer == before
      case CloseRequest => result == ResultClose && readBuffer == before
      case Ping(_, rest) => result == ResultPingPong && readBuffer == rest
      case Pong(rest) => result == ResultPingPong && readBuffer == rest
      case Text(payload, rest) => result == ResultOk && readBuffer == rest && output == payload
    }

    /** Queues a pong whatever the queue length. */
    method SendPong(payload: seq<byte>)
      requires QueueValid() && upgraded && !closed && |payload| <= MAX_CLIENT_FRAME
      modifies this`writeQueue, this`writeArmed, this`early, this`frames
      ensures QueueValid() && early == old(early) && frames == old(frames) + [PongFrame(payload)]
      ensures writeQueue == old(writeQueue) + [ServerWire(PongFrame(payload))]
    {
      hide QueueValid, ServerWire;
      var message := SendMessage(OPCODE_PONG, payload);
      assert payload[..|payload| % 0x1_0000_0000] == payload;
      EnqueueFrame(message, PongFrame(payload));
    }

    /** Runs the command that a text message carries. What the command itself does
        is the parameter `effect`; here is what every command goes through. */
    method Dispatch(message: seq<byte>, effect: Effect)
      requires Valid() && |message| >= SHORTEST_MESSAGE
      modifies this`writeQueue, this`writeArmed, this`early, this`frames, this`delayClose, this`readArmed
      ensures Valid() && (upgraded ==> early == old(early))
      ensures var command := CommandOf(message[..3]);
              delayClose == (old(delayClose) || DelaysClose(command, identified, effect))
      ensures writeQueue == if closed then old(writeQueue)
                            else OfferAll(old(writeQueue), Replies(CommandOf(message[..3]), identified, effect))
    {
      hide Valid, OfferAll, ServerWire, TextFrame;
      OfferNone(writeQueue, effect.errorText);
      OfferNone(OfferAll(writeQueue, effect.replies), effect.errorText);
      OfferOneMore(writeQueue, effect.replies, effect.errorText);
      var command := CommandOf(message[..3]);
      var code := CodeFatalInternal;
      if command.PIN? {
        code := CodeOk;
      } else if command.IDN? {
        RunCommand(effect);
        code := effect.code;
        if code != CodeOk {
          SetDelayClose();
        }
      } else if command != Scripted || identified {
        RunCommand(effect);
        code := effect.code;
      } else {
        code := CodeRequiresIdent;
      }
      Report(code, effect.errorText);
    }

    /** Reports the code that a command returned; the two worst ones also close. */
    method Report(code: ReturnCode, errorText: seq<byte>)
      requires Valid()
      modifies this`writeQueue, this`writeArmed, this`early, this`frames, this`delayClose, this`readArmed
      ensures Valid() && (upgraded ==> early == old(early))
      ensures delayClose == (old(delayClose) || code == CodeRequiresIdent || code == CodeFatalInternal)
      ensures writeQueue == if closed || code == CodeOk then old(writeQueue) else OfferAll(old(writeQueue), [errorText])
    {
      hide Valid, OfferAll, ServerWire, TextFrame;
      OfferNone(writeQueue, errorText);
      if code == CodeRequiresIdent || code == CodeFatalInternal {
        SetDelayClose();
        var _ := Send(errorText);
      } else if code != CodeOk {
        var _ := Send(errorText);
      }
    }

    method RunCommand(effect: Effect)
      requires Valid()
      modifies this`writeQueue, this`writeArmed, this`early, this`frames, this`delayClose, this`readArmed
      ensures Valid() && (upgraded ==> early == old(early))
      ensures delayClose == (old(delayClose) || effect.close)
      ensures writeQueue == if closed then old(writeQueue) else OfferAll(old(writeQueue), effect.replies)
    {
      hide Valid, OfferAll;
      OfferNone(writeQueue, effect.errorText);
      for i := 0 to |effect.replies|
        invariant Valid() && (upgraded ==> early == old(early))
        invariant delayClose == old(delayClose)
        invariant writeQueue == if closed then old(writeQueue) else OfferAll(old(writeQueue), effect.replies[..i])
      {
        OfferOneMore(old(writeQueue), effect.replies[..i], effect.replies[i]);
        assert effect.replies[..i + 1] == effect.replies[..i] + [effect.replies[i]];
        var _ := Send(effect.replies[i]);
      }
      assert effect.replies[..|effect.replies|] == effect.replies;
      if effect.close {
        SetDelayClose();
      }
    }

    /** The socket is readable. A full buffer closes the socket first, after which
        `recv` can only fail. `effects(k)` is what the command of the event's
        k-th message does. */
    method ReadReady(outcome: Recv, effects: nat -> Effect)
      requires Valid() && upgraded
      requires |readBuffer| > MAX_READ_BUFFER ==> outcome == RecvGone
      modifies this
      ensures Valid() && upgraded
      ensures written == old(written) && greeting == old(greeting) && early == old(early)
      ensures old(closed) ==> View() == old(View())
      ensures !old(closed) && outcome.Data? && outcome.bytes != []
              ==> View() == ReadEvent(old(View()), outcome.bytes) && (closed <==> View().Hung())
      ensures !old(closed) && outcome.Data? && outcome.bytes != []
              ==> Answers(old(Queued()), HandleFrames(old(readBuffer) + outcome.bytes, FRAMES_PER_EVENT).events,
                          identified, effects, Queued())
      ensures outcome.RecvBlocked?
              ==> View() == old(View()) && closed == old(closed) && writeQueue == old(writeQueue)
      ensures outcome == RecvGone || outcome == Data([])
              ==> closed && handled == old(handled) && readBuffer == old(readBuffer) && writeQueue == old(writeQueue)
      ensures identified == old(identified)
    {
      hide QueueValid, Accounts, PingsAnswered;
      if closed {
        return;
      }
      if |readBuffer| > MAX_READ_BUFFER {
        PrepareShutdown();
        overflow := true;
      }
      if outcome.RecvBlocked? {
        return;
      } else if outcome.RecvGone? || outcome.bytes == [] {
        PrepareShutdown();
        return;
      }
      ReadFrames(outcome.bytes, effects);
    }

    lemma NothingStopped()
      requires Valid() && !closed && upgraded
      ensures stop == Continue && !overflow
    {
    }

    method Take(bytes: seq<byte>)
      requires Valid() && upgraded && !closed
      modifies this`readBuffer, this`taken
      ensures Valid() && readBuffer == old(readBuffer) + bytes && taken == old(taken) + bytes
      ensures stop == Continue && !overflow
    {
      hide Accounts;
      AccountsAppend(taken, handled, readBuffer, bytes);
      readBuffer := readBuffer + bytes;
      taken := taken + bytes;
    }

    /** Appends what was received and handles up to nine frames. */
    method ReadFrames(bytes: seq<byte>, effects: nat -> Effect)
      requires Valid() && upgraded && !closed && |readBuffer| <= MAX_READ_BUFFER
      modifies this`readBuffer, this`writeQueue, this`writeArmed, this`early, this`frames, this`delayClose,
               this`readArmed, this`handled, this`stop, this`closed, this`taken
      ensures Valid() && early == old(early)
      ensures View() == ReadEvent(old(View()), bytes)
      ensures closed <==> View().Hung()
      ensures Answers(old(Queued()), HandleFrames(old(readBuffer) + bytes, FRAMES_PER_EVENT).events, identified, effects, Queued())
    {
      hide Valid, HandleFrames, Parse, Answers, ReadEvent;
      NothingStopped();
      ReadEventOpen(View(), bytes);
      Take(bytes);
      HandleBuffered(effects);
    }

    method HandleBuffered(effects: nat -> Effect)
      requires Valid() && upgraded && !closed && !overflow
      modifies this`readBuffer, this`writeQueue, this`writeArmed, this`early, this`frames, this`delayClose,
               this`readArmed, this`handled, this`stop, this`closed
      ensures Valid() && early == old(early)
      ensures var d := HandleFrames(old(readBuffer), FRAMES_PER_EVENT);
              && readBuffer == d.rest && handled == old(handled) + d.events && stop == d.stop
              && (closed <==> d.stop.HangUp?)
              && Answers(old(Queued()), d.events, identified, effects, Queued())
    {
      hide Valid, HandleFrames, Parse, Resumes, Answers, Answered;
      AnswersNone(Queued(), identified, effects);
      ghost var goal := HandleFrames(readBuffer, FRAMES_PER_EVENT);
      ResumesStart(readBuffer, FRAMES_PER_EVENT);
      NothingStopped();
      ghost var done: seq<Event> := [];
      var repeat := 10;
      repeat := repeat - 1;
      while repeat != 0 && readBuffer != []
        invariant 0 <= repeat <= 9
        invariant Valid() && !closed && early == old(early) && stop == Continue
        invariant handled == old(handled) + done
        invariant Resumes(goal, done, readBuffer, repeat) && |done| == 9 - repeat
        invariant Answers(old(Queued()), done, identified, effects, Queued())
      {
        ghost var one := HandleFrames(readBuffer, 1);
        ResumesNext(goal, done, readBuffer, repeat);
        ghost var before := Queued();
        var goOn := HandleFrame(effects(9 - repeat));
        AnswersNext(old(Queued()), done, before, one.events, Queued(), identified, effects);
        done := done + one.events;
        if !goOn {
          return;
        }
        repeat := repeat - 1;
      }
      ResumesEnd(goal, done, readBuffer, repeat);
    }

    /** Closes because of what the stream contains. */
    method HangUpFor(ghost why: Ending)
      requires QueueValid() && PingsAnswered() && upgraded && !closed
      requires Accounts(taken, handled, readBuffer, HangUp(why))
      modifies this`stop, this`closed, this`readArmed, this`writeArmed
      ensures Valid() && closed && stop == HangUp(why)
    {
      hide QueueValid, Accounts;
      stop := HangUp(why);
      PrepareShutdown();
    }

    /** Handles the frame at the front of the buffer, if one is complete there. */
    method HandleFrame(effect: Effect) returns (goOn: bool)
      requires Valid() && upgraded && !closed && readBuffer != []
      modifies this`readBuffer, this`writeQueue, this`writeArmed, this`early, this`frames, this`delayClose,
               this`readArmed, this`handled, this`stop, this`closed
      ensures Valid() && early == old(early)
      ensures var one := HandleFrames(old(readBuffer), 1);
              && readBuffer == one.rest && handled == old(handled) + one.events && stop == one.stop
              && (closed <==> one.stop.HangUp?)
              && (goOn <==> Parse(old(readBuffer)).Text? && one.stop.Continue?)
              && (goOn ==> |one.events| == 1)
      ensures Answered(old(Queued()), HandleFrames(old(readBuffer), 1).events, identified, effect, Queued())
    {
      hide QueueValid, Accounts, PingPayloads, PongPayloads, Parse, HandleFrames, Answered, WithPong, EventOf, OfferAll, Replies, DelaysClose, ServerWire;
      ghost var v := Parse(readBuffer);
      AccountsOneMore(taken, handled, readBuffer, 1);
      OneFrame(readBuffer);
      if v.Ping? || v.Pong? {
        AnsweredControl(Queued(), v, identified, effect);
      } else {
        AnsweredNothing(Queued(), v, identified, effect);
      }
      if v.Ping? {
        PongPayloadsAppend(frames, PongFrame(v.payload));
      }
      var result, message := Receive();
      goOn := false;
      if result == ResultIncomplete {
      } else if result == ResultPingPong {
        Log(EventOf(v));
      } else if result == ResultError || result == ResultClose || |message| < SHORTEST_MESSAGE {
        assert handled + [] == handled;
        HangUpFor(if v.Violation? then ProtocolError else if v.CloseRequest? then ClosedByClient else MessageTooShort);
      } else {
        HandleMessage(message, effect);
        goOn := true;
      }
    }

    method HandleMessage(message: seq<byte>, effect: Effect)
      requires QueueValid() && PingsAnswered() && upgraded && !closed && stop.Continue? && !overflow
      requires |message| >= SHORTEST_MESSAGE && Accounts(taken, handled + [Message(message)], readBuffer, Continue)
      modifies this`writeQueue, this`writeArmed, this`early, this`frames, this`delayClose, this`readArmed, this`handled
      ensures Valid() && early == old(early) && handled == old(handled) + [Message(message)]
      ensures Answered(old(Queued()), [Message(message)], identified, effect, Queued())
    {
      hide QueueValid, Accounts, PingPayloads, PongPayloads, Answered, OfferAll, Replies, DelaysClose;
      Log(Message(message));
      Dispatch(message, effect);
      AnsweredMessage(old(Queued()), message, identified, effect, Queued());
    }

    /** The kernel took `count` more bytes of the front buffer. */
    method Advance(count: nat)
      requires QueueValid() && writeQueue != [] && 0 < count <= |writeQueue[0]| - writePosition
      modifies this`writeQueue, this`writePosition, this`written
      ensures QueueValid()
      ensures written == old(written) + old(writeQueue[0])[old(writePosition)..old(writePosition) + count]
      ensures if old(writePosition) + count < |old(writeQueue[0])|
              then writeQueue == old(writeQueue) && writePosition == old(writePosition) + count
              else writeQueue == old(writeQueue)[1..] && writePosition == 0
    {
      hide Concat, Accepted;
      var front := writeQueue[0];
      QueueSplit(writeQueue, writePosition, count);
      written := written + front[writePosition..writePosition + count];
      if writePosition + count == |front| {
        writeQueue := writeQueue[1..];
        writePosition := 0;
      } else {
        writePosition := writePosition + count;
      }
    }

    /** The socket is writable: sends buffers until the kernel has had enough.
        `kernel(k, n)` is the outcome of the k-th call when it is offered n bytes.
        With the bytes written fixed by `Valid`, the rest says how far it goes: the
        first k buffers leave whole, and the k-th call is the one that ends it. */
    method WriteReady(kernel: (nat, int) -> SendOutcome)
      requires Valid()
      modifies this`writeQueue, this`writePosition, this`written, this`closed, this`readArmed, this`writeArmed
      ensures Valid()
      ensures old(closed) ==> closed && written == old(written) && writeQueue == old(writeQueue)
      ensures !old(closed) ==> |writeQueue| <= |old(writeQueue)|
      ensures !old(closed) ==>
                var queue, position, k := old(writeQueue), old(writePosition), |old(writeQueue)| - |writeQueue|;
                && writeQueue == queue[k..] && TookWhole(queue, position, kernel, k)
                && if k == |queue| then !closed && !writeArmed && writePosition == (if k == 0 then position else 0)
                   else EndsAt(kernel(k, Offered(queue, position, k)), Offered(queue, position, k), if k == 0 then position else 0)
    {
      hide QueueValid, ReadValid, PingsAnswered, Accepted, Concat;
      if closed {
        return;
      }
      var calls := 0;
      while writeQueue != []
        invariant Valid() && !closed
        invariant calls <= |old(writeQueue)| && writeQueue == old(writeQueue)[calls..]
        invariant writePosition == if calls == 0 then old(writePosition) else 0
        invariant TookWhole(old(writeQueue), old(writePosition), kernel, calls)
        decreases |writeQueue|
      {
        PositionInFront();
        var len := |writeQueue[0]| - writePosition;
        assert len == Offered(old(writeQueue), old(writePosition), calls);
        var outcome := kernel(calls, len);
        if outcome.SendBlocked? {
          return;
        } else if outcome.SendFailed? || outcome.count == 0 || len == 0 {
          PrepareShutdown();
          return;
        } else if outcome.count < len {
          Advance(outcome.count);
          return;
        } else {
          Advance(len);
          calls := calls + 1;
        }
      }
      Disarm();
    }

    /** The call that ends a write event: blocked and failed calls leave the front
        buffer where it was, a partial one moves its position by what was taken. */
    ghost predicate EndsAt(outcome: SendOutcome, offered: int, position: nat)
      reads this`closed, this`writePosition
    {
      match outcome
      case SendBlocked => !closed && writePosition == position
      case SendFailed => closed && writePosition == position
      case Took(count) =>
        if count == 0 || offered == 0 then closed && writePosition == position
        else count < offered && !closed && writePosition == position + count
    }

    lemma PositionInFront()
      requires QueueValid() && writeQueue != []
      ensures writePosition <= |writeQueue[0]|
    {
    }

    method Disarm()
      requires QueueValid() && writeQueue == []
      modifies this`writeArmed
      ensures QueueValid() && !writeArmed
    {
      writeArmed := false;
    }

    /** Timer: the second stage of a delayed close closes the connection. */
    method DelayedClose()
      requires Valid() && delayClose
      modifies this`closed, this`readArmed, this`writeArmed
      ensures Valid() && closed
    {
      hide Valid;
      PrepareShutdown();
    }

    /** End to end: of the bytes that follow the handshake response, a strict
        client reads a prefix of exactly the frames accepted since, in order. */
    lemma ClientSeesAcceptedFrames()
      requires Valid() && upgraded
      ensures var start := |WireAll(early)| + |greeting|;
              |written| >= start ==> ReadsPrefix(ClientDecode(written[start..]), frames, |written| - start)
    {
      hide ReadValid, PingsAnswered, Concat, ReadsPrefix, WireAll, AcceptedBytes, ClientDecode;
      ClientReadsWritten(early, greeting, frames, written, Concat(writeQueue)[writePosition..]);
    }

    ghost method Log(e: Event)
      modifies this`handled
      ensures handled == old(handled) + [e]
      ensures PingPayloads(handled) == PingPayloads(old(handled)) + (if e.Pinged? then [e.payload] else [])
    {
      PingPayloadsAppend(handled, e);
      handled := handled + [e];
    }
  }
}
