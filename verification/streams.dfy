/** The ideal reading of a client's byte stream, and the bounded read loop that
    refines it however the bytes are cut into chunks. */
module Streams {
  import opened Bytes
  import opened Frames

  const MAX_READ_BUFFER: nat := 0x100000
  const FRAMES_PER_EVENT: nat := 9
  const SHORTEST_MESSAGE: nat := 3

  datatype Event = Message(payload: seq<byte>) | Pinged(payload: seq<byte>) | Ponged

  /** How a stream ends: with bytes of an unfinished frame, or with the reason
      for which the server hangs up. */
  datatype Ending =
    | Waiting(rest: seq<byte>)
    | ProtocolError
    | ClosedByClient
    | MessageTooShort

  datatype Reading = Reading(events: seq<Event>, ending: Ending)
  {
    function After(earlier: seq<Event>): Reading {
      Reading(earlier + events, ending)
    }
  }

  /** What the whole stream means, with no bound on the work done at once. */
  function Ideal(stream: seq<byte>): Reading
    decreases |stream|
  {
    FrameConsumes(stream);
    match Parse(stream)
    case Incomplete => Reading([], Waiting(stream))
    case Violation => Reading([], ProtocolError)
    case CloseRequest => Reading([], ClosedByClient)
    case Ping(p, rest) => Ideal(rest).After([Pinged(p)])
    case Pong(rest) => Ideal(rest).After([Ponged])
    case Text(p, rest) =>
      if |p| < SHORTEST_MESSAGE then Reading([], MessageTooShort) else Ideal(rest).After([Message(p)])
  }

  lemma AfterAfter(r: Reading, a: seq<Event>, b: seq<Event>)
    ensures r.After(b).After(a) == r.After(a + b)
  {
    assert a + (b + r.events) == a + b + r.events;
  }

  lemma AfterNothing(r: Reading)
    ensures r.After([]) == r
  {
    assert [] + r.events == r.events;
  }

  /** The first event of a stream and what follows it, when a frame is complete. */
  lemma IdealStep(stream: seq<byte>)
    requires Parse(stream).Completed()
    ensures |Parse(stream).rest| < |stream|
    ensures Parse(stream).Text? && |Parse(stream).payload| < SHORTEST_MESSAGE ==> Ideal(stream) == Reading([], MessageTooShort)
    ensures !(Parse(stream).Text? && |Parse(stream).payload| < SHORTEST_MESSAGE)
            ==> Ideal(stream) == Ideal(Parse(stream).rest).After([EventOf(Parse(stream))])
  {
    FrameConsumes(stream);
  }

  function EventOf(v: Verdict): Event
    requires v.Completed()
  {
    match v
    case Text(p, _) => Message(p)
    case Ping(p, _) => Pinged(p)
    case Pong(_) => Ponged
  }

  /** Reading a stream in two parts is reading it whole. */
  lemma {:induction false} IdealSplit(a: seq<byte>, b: seq<byte>)
    ensures var first := Ideal(a);
            Ideal(a + b) == if first.ending.Waiting? then Ideal(first.ending.rest + b).After(first.events) else first
    decreases |a|
  {
    var v := Parse(a);
    if v.Incomplete? {
      AfterNothing(Ideal(a + b));
    } else {
      ParseStable(a, b);
      if v.Completed() && !(v.Text? && |v.payload| < SHORTEST_MESSAGE) {
        IdealStep(a);
        IdealStep(a + b);
        IdealSplit(v.rest, b);
        var later := Ideal(v.rest);
        if later.ending.Waiting? {
          AfterAfter(Ideal(later.ending.rest + b), [EventOf(v)], later.events);
        }
      }
    }
  }

  // -------------------------------------------------------------------------
  // One read event: at most nine frames, and none after a ping or a pong

  datatype Drained = Drained(events: seq<Event>, rest: seq<byte>, stop: Stop)

  datatype Stop = Continue | HangUp(why: Ending)

  function HandleFrames(buffer: seq<byte>, budget: nat): Drained
    decreases budget
  {
    if budget == 0 || buffer == [] then Drained([], buffer, Continue)
    else match Parse(buffer)
      case Incomplete => Drained([], buffer, Continue)
      case Violation => Drained([], buffer, HangUp(ProtocolError))
      case CloseRequest => Drained([], buffer, HangUp(ClosedByClient))
      case Ping(p, rest) => Drained([Pinged(p)], rest, Continue)
      case Pong(rest) => Drained([Ponged], rest, Continue)
      case Text(p, rest) =>
        if |p| < SHORTEST_MESSAGE then Drained([], rest, HangUp(MessageTooShort))
        else
          var later := HandleFrames(rest, budget - 1);
          Drained([Message(p)] + later.events, later.rest, later.stop)
  }

  /** What an event handled and left over says about the stream it started from. */
  ghost predicate Accounts(stream: seq<byte>, handled: seq<Event>, buffer: seq<byte>, stop: Stop) {
    match stop
    case Continue => Ideal(stream) == Ideal(buffer).After(handled)
    case HangUp(why) => Ideal(stream) == Reading(handled, why)
  }

  /** Handling frames loses, reorders and invents nothing. */
  lemma {:induction false} HandleFramesAccounts(buffer: seq<byte>, budget: nat)
    ensures var d := HandleFrames(buffer, budget); Accounts(buffer, d.events, d.rest, d.stop)
    decreases budget
  {
    var v := Parse(buffer);
    if budget == 0 || buffer == [] || v.Incomplete? {
      AfterNothing(Ideal(buffer));
    } else if v.Text? && |v.payload| >= SHORTEST_MESSAGE {
      IdealStep(buffer);
      HandleFramesAccounts(v.rest, budget - 1);
      var later := HandleFrames(v.rest, budget - 1);
      AfterAfter(Ideal(later.rest), [Message(v.payload)], later.events);
    }
  }

  /** No frame but the last is a ping or a pong. */
  predicate ControlOnlyLast(events: seq<Event>) {
    forall i :: 0 <= i < |events| - 1 ==> events[i].Message?
  }

  lemma ControlOnlyLastCons(e: Event, later: seq<Event>)
    ensures ControlOnlyLast([e] + later) <==> later == [] || (e.Message? && ControlOnlyLast(later))
  {
    var all := [e] + later;
    assert forall i :: 0 <= i < |later| ==> later[i] == all[i + 1];
    assert all[0] == e;
  }

  lemma NothingArrived()
    ensures Parse([]).Incomplete?
  {
  }

  /** One event delivers every complete frame exactly when there are at most as
      many as the budget and no ping or pong comes before another frame. */
  lemma {:induction false} DeliversAllExactlyWhen(buffer: seq<byte>, budget: nat)
    ensures var all := Ideal(buffer).events;
            HandleFrames(buffer, budget).events == all <==> |all| <= budget && ControlOnlyLast(all)
    decreases budget
  {
    hide Parse;
    NothingArrived();
    var v := Parse(buffer);
    if budget > 0 && v.Completed() && !(v.Text? && |v.payload| < SHORTEST_MESSAGE) {
      IdealStep(buffer);
      var later := Ideal(v.rest).events;
      ControlOnlyLastCons(EventOf(v), later);
      if v.Text? {
        DeliversAllExactlyWhen(v.rest, budget - 1);
        var mine := HandleFrames(v.rest, budget - 1).events;
        assert ([EventOf(v)] + mine)[1..] == mine && ([EventOf(v)] + later)[1..] == later;
      }
    }
  }

  /** Accounting composes: a chunk appended to an accounted buffer, then handled. */
  lemma AccountsCompose(stream: seq<byte>, handled: seq<Event>, buffer: seq<byte>, chunk: seq<byte>, d: Drained)
    requires Accounts(stream, handled, buffer, Continue)
    requires Accounts(buffer + chunk, d.events, d.rest, d.stop)
    ensures Accounts(stream + chunk, handled + d.events, d.rest, d.stop)
  {
    IdealSplit(stream, chunk);
    IdealSplit(buffer, chunk);
    var b := Ideal(buffer);
    if b.ending.Waiting? {
      AfterAfter(Ideal(b.ending.rest + chunk), handled, b.events);
    }
    assert Ideal(stream + chunk) == Ideal(buffer + chunk).After(handled);
    if d.stop.Continue? {
      AfterAfter(Ideal(d.rest), handled, d.events);
    }
  }

  lemma AccountsAppend(stream: seq<byte>, handled: seq<Event>, buffer: seq<byte>, chunk: seq<byte>)
    requires Accounts(stream, handled, buffer, Continue)
    ensures Accounts(stream + chunk, handled, buffer + chunk, Continue)
  {
    AfterNothing(Ideal(buffer + chunk));
    AccountsCompose(stream, handled, buffer, chunk, Drained([], buffer + chunk, Continue));
    assert handled + [] == handled;
  }

  lemma AccountsOneMore(stream: seq<byte>, handled: seq<Event>, buffer: seq<byte>, budget: nat)
    requires Accounts(stream, handled, buffer, Continue)
    ensures var d := HandleFrames(buffer, budget); Accounts(stream, handled + d.events, d.rest, d.stop)
  {
    HandleFramesAccounts(buffer, budget);
    assert buffer + [] == buffer && stream + [] == stream;
    AccountsCompose(stream, handled, buffer, [], HandleFrames(buffer, budget));
  }

  /** Handling with a budget of one. */
  lemma OneFrame(buffer: seq<byte>)
    requires buffer != []
    ensures HandleFrames(buffer, 1)
            == match Parse(buffer)
               case Incomplete => Drained([], buffer, Continue)
               case Violation => Drained([], buffer, HangUp(ProtocolError))
               case CloseRequest => Drained([], buffer, HangUp(ClosedByClient))
               case Text(p, rest) => if |p| < SHORTEST_MESSAGE then Drained([], rest, HangUp(MessageTooShort))
                                     else Drained([Message(p)], rest, Continue)
               case v => Drained([EventOf(v)], v.rest, Continue)
  {
    hide Parse;
    if Parse(buffer).Text? {
      var p := Parse(buffer).payload;
      assert HandleFrames(Parse(buffer).rest, 0).events == [];
      assert [Message(p)] + [] == [Message(p)];
    }
  }

  /** The first frame of an event, then the rest of the event. */
  lemma UnrollFrames(buffer: seq<byte>, budget: nat)
    requires buffer != [] && budget > 0
    ensures var one := HandleFrames(buffer, 1);
            HandleFrames(buffer, budget)
            == if Parse(buffer).Text? && one.stop.Continue?
               then var later := HandleFrames(one.rest, budget - 1);
                    Drained(one.events + later.events, later.rest, later.stop)
               else one
  {
    hide Parse;
    OneFrame(buffer);
  }

  /** Handling frames from `buffer` on, after `done`, ends as `goal` does. */
  ghost predicate Resumes(goal: Drained, done: seq<Event>, buffer: seq<byte>, budget: nat) {
    var d := HandleFrames(buffer, budget);
    goal == Drained(done + d.events, d.rest, d.stop)
  }

  lemma ResumesStart(buffer: seq<byte>, budget: nat)
    ensures Resumes(HandleFrames(buffer, budget), [], buffer, budget)
  {
    var d := HandleFrames(buffer, budget);
    assert [] + d.events == d.events;
  }

  lemma ResumesEnd(goal: Drained, done: seq<Event>, buffer: seq<byte>, budget: nat)
    requires Resumes(goal, done, buffer, budget) && (budget == 0 || buffer == [])
    ensures goal == Drained(done, buffer, Continue)
  {
    assert done + [] == done;
  }

  lemma ResumesNext(goal: Drained, done: seq<Event>, buffer: seq<byte>, budget: nat)
    requires buffer != [] && budget > 0 && Resumes(goal, done, buffer, budget)
    ensures var one := HandleFrames(buffer, 1);
            if Parse(buffer).Text? && one.stop.Continue? then Resumes(goal, done + one.events, one.rest, budget - 1)
            else goal == Drained(done + one.events, one.rest, one.stop)
  {
    hide Parse, HandleFrames;
    UnrollFrames(buffer, budget);
    var one := HandleFrames(buffer, 1);
    var later := HandleFrames(one.rest, budget - 1);
    assert done + (one.events + later.events) == done + one.events + later.events;
  }

  // -------------------------------------------------------------------------
  // Whole runs: any number of read events

  /** `taken` is every byte received; `Overflow` is a hang-up for a full buffer. */
  datatype ReadState = ReadState(taken: seq<byte>, buffer: seq<byte>, handled: seq<Event>, stop: Stop, overflow: bool)
  {
    predicate Hung() {
      stop.HangUp? || overflow
    }
  }

  const FRESH: ReadState := ReadState([], [], [], Continue, false)

  function ReadEvent(s: ReadState, chunk: seq<byte>): ReadState {
    if s.Hung() then s
    else if |s.buffer| > MAX_READ_BUFFER then s.(overflow := true)
    else
      var d := HandleFrames(s.buffer + chunk, FRAMES_PER_EVENT);
      ReadState(s.taken + chunk, d.rest, s.handled + d.events, d.stop, false)
  }

  lemma ReadEventOpen(s: ReadState, chunk: seq<byte>)
    requires !s.Hung() && |s.buffer| <= MAX_READ_BUFFER
    ensures var d := HandleFrames(s.buffer + chunk, FRAMES_PER_EVENT);
            ReadEvent(s, chunk) == ReadState(s.taken + chunk, d.rest, s.handled + d.events, d.stop, false)
  {
  }

  function ReadEvents(s: ReadState, chunks: seq<seq<byte>>): ReadState
    decreases |chunks|
  {
    if chunks == [] then s else ReadEvents(ReadEvent(s, chunks[0]), chunks[1..])
  }

  ghost predicate Faithful(s: ReadState) {
    Accounts(s.taken, s.handled, s.buffer, s.stop)
  }

  lemma ReadEventFaithful(s: ReadState, chunk: seq<byte>)
    requires Faithful(s)
    ensures Faithful(ReadEvent(s, chunk))
  {
    if !s.Hung() && |s.buffer| <= MAX_READ_BUFFER {
      HandleFramesAccounts(s.buffer + chunk, FRAMES_PER_EVENT);
      AccountsCompose(s.taken, s.handled, s.buffer, chunk, HandleFrames(s.buffer + chunk, FRAMES_PER_EVENT));
    }
  }

  lemma {:induction false} ReadEventsFaithful(s: ReadState, chunks: seq<seq<byte>>)
    requires Faithful(s)
    ensures var t := ReadEvents(s, chunks);
            && Faithful(t)
            && s.taken <= t.taken <= s.taken + Concat(chunks)
            && (!t.Hung() ==> t.taken == s.taken + Concat(chunks))
    decreases |chunks|
  {
    if chunks == [] {
      assert s.taken + [] == s.taken;
    } else {
      var next := ReadEvent(s, chunks[0]);
      ReadEventFaithful(s, chunks[0]);
      ReadEventsFaithful(next, chunks[1..]);
      assert s.taken + Concat(chunks) == s.taken + chunks[0] + Concat(chunks[1..]);
      if s.Hung() || |s.buffer| > MAX_READ_BUFFER {
        HungStays(next, chunks[1..]);
      }
    }
  }

  lemma {:induction false} HungStays(s: ReadState, chunks: seq<seq<byte>>)
    requires s.Hung()
    ensures ReadEvents(s, chunks) == s
    decreases |chunks|
  {
    if chunks != [] {
      HungStays(s, chunks[1..]);
    }
  }

  lemma IdealGrows(a: seq<byte>, b: seq<byte>)
    ensures Ideal(a).events <= Ideal(a + b).events
    ensures !Ideal(a).ending.Waiting? ==> Ideal(a + b) == Ideal(a)
  {
    IdealSplit(a, b);
  }

  /** What a faithful state says about the stream it has taken a prefix of. */
  lemma FaithfulPrefix(t: ReadState, all: seq<byte>)
    requires Faithful(t) && t.taken <= all
    requires t.stop.HangUp? ==> !t.stop.why.Waiting?
    ensures t.handled <= Ideal(all).events
    ensures t.stop.HangUp? ==> Ideal(all) == Reading(t.handled, t.stop.why)
  {
    var more := all[|t.taken|..];
    assert all == t.taken + more;
    IdealGrows(t.taken, more);
    assert t.handled <= Ideal(t.taken).events;
  }

  lemma FreshRun(chunks: seq<seq<byte>>)
    ensures var t := ReadEvents(FRESH, chunks);
            && Faithful(t) && t.taken <= Concat(chunks)
            && (!t.Hung() ==> t.taken == Concat(chunks))
            && (t.stop.HangUp? ==> !t.stop.why.Waiting?)
  {
    AfterNothing(Ideal([]));
    ReadEventsFaithful(FRESH, chunks);
    assert [] + Concat(chunks) == Concat(chunks);
    HangUpNotWaiting(FRESH, chunks);
  }

  /** However a stream is cut into chunks: while the connection is up, the events
      handled so far followed by the ideal reading of the buffer are the ideal
      reading of everything sent; and when the server hangs up over the stream,
      the whole stream means exactly the events handled and that reason. */
  lemma ReadLoopRefinesIdeal(chunks: seq<seq<byte>>)
    ensures var t := ReadEvents(FRESH, chunks);
            && t.handled <= Ideal(Concat(chunks)).events
            && (!t.Hung() ==> Ideal(Concat(chunks)) == Ideal(t.buffer).After(t.handled))
            && (t.stop.HangUp? ==> Ideal(Concat(chunks)) == Reading(t.handled, t.stop.why))
  {
    FreshRun(chunks);
    FaithfulPrefix(ReadEvents(FRESH, chunks), Concat(chunks));
  }

  lemma {:induction false} HangUpNotWaiting(s: ReadState, chunks: seq<seq<byte>>)
    requires s.stop.HangUp? ==> !s.stop.why.Waiting?
    ensures var t := ReadEvents(s, chunks); t.stop.HangUp? ==> !t.stop.why.Waiting?
    decreases |chunks|
  {
    if chunks != [] {
      if !s.Hung() && |s.buffer| <= MAX_READ_BUFFER {
        HandleFramesReason(s.buffer + chunks[0], FRAMES_PER_EVENT);
      }
      HangUpNotWaiting(ReadEvent(s, chunks[0]), chunks[1..]);
    }
  }

  lemma {:induction false} HandleFramesReason(buffer: seq<byte>, budget: nat)
    ensures var d := HandleFrames(buffer, budget); d.stop.HangUp? ==> !d.stop.why.Waiting?
    decreases budget
  {
    if budget > 0 && Parse(buffer).Text? {
      HandleFramesReason(Parse(buffer).rest, budget - 1);
    }
  }

  /** Two ways of cutting one stream into chunks can differ only in how much of
      it is still buffered. */
  lemma ChunkingIsUnobservable(one: seq<seq<byte>>, other: seq<seq<byte>>)
    requires Concat(one) == Concat(other)
    ensures var a, b := ReadEvents(FRESH, one), ReadEvents(FRESH, other);
            && (a.handled <= b.handled || b.handled <= a.handled)
            && (!a.Hung() && !b.Hung() ==> Ideal(a.buffer).After(a.handled) == Ideal(b.buffer).After(b.handled))
            && (a.stop.HangUp? && b.stop.HangUp? ==> a.stop == b.stop && a.handled == b.handled)
  {
    ReadLoopRefinesIdeal(one);
    ReadLoopRefinesIdeal(other);
  }
}
