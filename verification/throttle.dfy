/** The flood throttles: one timer per connection shared by messages, private
    messages, rolls and ads, and one per channel for ads. */
module Throttle {
  type Name = string

  /** Consecutive times are at least `interval` apart. */
  predicate Spaced(times: seq<real>, interval: real) {
    forall i :: 0 <= i < |times| - 1 ==> times[i] + interval <= times[i + 1]
  }

  /** Whether a timer that last ran at `last` holds back an attempt at `time`. */
  predicate Held(last: real, time: real, interval: real) {
    last > time - interval
  }

  lemma {:induction false} FarApart(times: seq<real>, interval: real, i: nat, j: nat)
    requires Spaced(times, interval) && i <= j < |times|
    ensures times[i] + (j - i) as real * interval <= times[j]
    decreases j
  {
    if i < j {
      FarApart(times, interval, i, j - 1);
      assert times[j - 1] + interval <= times[j - 1 + 1];
      assert (j - i) as real * interval == (j - 1 - i) as real * interval + interval;
    }
  }

  /** A window of any length holds at most one more acceptance than whole
      intervals fit into it. */
  lemma WindowBound(times: seq<real>, interval: real, i: nat, j: nat, width: real)
    requires Spaced(times, interval) && interval > 0.0 && i <= j < |times|
    requires times[j] - times[i] <= width
    ensures j - i + 1 <= (width / interval).Floor + 1
  {
    FarApart(times, interval, i, j);
    var steps, whole := (j - i) as real, width / interval;
    assert whole * interval == width;
    assert (steps - whole) * interval == steps * interval - whole * interval;
    NotPositive(steps - whole, interval);
  }

  lemma NotPositive(x: real, y: real)
    requires y > 0.0 && x * y <= 0.0
    ensures x <= 0.0
  {
  }

  lemma OneMore(times: seq<real>, interval: real, time: real)
    requires Spaced(times, interval)
    requires times != [] ==> times[|times| - 1] + interval <= time
    ensures Spaced(times + [time], interval)
  {
    var more := times + [time];
    forall i | 0 <= i < |more| - 1
      ensures more[i] + interval <= more[i + 1]
    {
      if i < |times| - 1 {
        assert more[i] == times[i] && more[i + 1] == times[i + 1];
      }
    }
  }

  class Channel {
    var timerMap: map<Name, real>

    constructor ()
      ensures timerMap == map[]
    {
      timerMap := map[];
    }

    function GetTimerEntry(name: Name): real
      reads this
    {
      if name in timerMap then timerMap[name] else -1.0
    }

    /** True when the ad is held back; otherwise the timer starts again. */
    method CheckUpdateTimer(name: Name, timeout: real, time: real) returns (held: bool)
      modifies this
      ensures held == Held(old(GetTimerEntry(name)), time, timeout)
      ensures timerMap == if held then old(timerMap) else old(timerMap)[name := time]
    {
      held := false;
      if GetTimerEntry(name) > time - timeout {
        held := true;
      } else {
        timerMap := timerMap[name := time];
      }
    }

    /** Leaving a channel forgets the ad timer. */
    method Part(name: Name)
      modifies this
      ensures timerMap == old(timerMap) - {name}
    {
      timerMap := timerMap - {name};
    }
  }

  /** What one connection does, at a time. An ad names a channel by its place in
      the list; `open` says that the channel exists and admits ads. */
  datatype Event =
    | Message(time: real)
    | PrivateMessage(time: real)
    | Roll(time: real)
    | Advert(channel: nat, open: bool, time: real)
    | Leave(channel: nat, time: real)

  /** What came of it: the message timer held it back; it passed the message timer
      but was refused as an ad; or it went through. */
  datatype Answer = HeldBack | Refused | Accepted

  /** No window holds more acceptances than one, and one for every whole interval in it. */
  ghost predicate Throttled(times: seq<real>, interval: real)
    requires interval > 0.0
  {
    forall i, j :: 0 <= i <= j < |times| ==> j - i + 1 <= ((times[j] - times[i]) / interval).Floor + 1
  }

  lemma SpacedIsThrottled(times: seq<real>, interval: real)
    requires interval > 0.0 && Spaced(times, interval)
    ensures Throttled(times, interval)
  {
    forall i, j | 0 <= i <= j < |times|
      ensures j - i + 1 <= ((times[j] - times[i]) / interval).Floor + 1
    {
      WindowBound(times, interval, i, j, times[j] - times[i]);
    }
  }

  /** The times at which attempts passed the message timer. */
  function MessageTimes(events: seq<Event>, answers: seq<Answer>): seq<real>
    requires |answers| == |events|
    decreases |events|
  {
    if events == [] then []
    else
      var last := |events| - 1;
      var before := MessageTimes(events[..last], answers[..last]);
      if events[last].Leave? || answers[last] == HeldBack then before else before + [events[last].time]
  }

  /** The times of the ads accepted in channel k since it was last left, after the
      ones in `earlier`. */
  function AdvertTimes(earlier: seq<real>, events: seq<Event>, answers: seq<Answer>, k: nat): seq<real>
    requires |answers| == |events|
    decreases |events|
  {
    if events == [] then earlier
    else
      var last := |events| - 1;
      var before := AdvertTimes(earlier, events[..last], answers[..last], k);
      match events[last]
      case Leave(channel, _) => if channel == k then [] else before
      case Advert(channel, _, time) => if channel == k && answers[last] == Accepted then before + [time] else before
      case _ => before
  }

  lemma NoTimes()
    ensures MessageTimes([], []) == []
    ensures forall earlier, k :: AdvertTimes(earlier, [], [], k) == earlier
    ensures forall earlier, k :: UnusedReading(earlier, [], k) == earlier
  {
  }

  lemma TimesOneMore(events: seq<Event>, answers: seq<Answer>, e: Event, answer: Answer, earlier: seq<real>, k: nat)
    requires |answers| == |events|
    ensures var before, more, verdicts := MessageTimes(events, answers), events + [e], answers + [answer];
            MessageTimes(more, verdicts) == if e.Leave? || answer == HeldBack then before else before + [e.time]
    ensures var before := AdvertTimes(earlier, events, answers, k);
            AdvertTimes(earlier, events + [e], answers + [answer], k)
            == if e.Leave? && e.channel == k then []
               else if e.Advert? && e.channel == k && answer == Accepted then before + [e.time] else before
  {
    var more, verdicts := events + [e], answers + [answer];
    assert more[..|events|] == events && more[|events|] == e;
    assert verdicts[..|answers|] == answers && verdicts[|answers|] == answer;
  }

  /** When the timer last ran, going by the accepted times on it. */
  function LastRun(times: seq<real>, otherwise: real): real {
    if times == [] then otherwise else times[|times| - 1]
  }

  /** What a channel's ad timer reads when no ad was accepted since it was last left. */
  function UnusedReading(earlier: real, events: seq<Event>, k: nat): real {
    if exists i :: 0 <= i < |events| && events[i].Leave? && events[i].channel == k then -1.0 else earlier
  }

  lemma UnusedOneMore(earlier: real, events: seq<Event>, e: Event, k: nat)
    ensures UnusedReading(earlier, events + [e], k)
            == if e.Leave? && e.channel == k then -1.0 else UnusedReading(earlier, events, k)
  {
    var more := events + [e];
    assert more[|events|] == e;
    assert forall i :: 0 <= i < |events| ==> more[i] == events[i];
  }

  /** Being held back by the last accepted attempt is being less than an interval
      behind any of them. */
  lemma HeldExactlyWhen(times: seq<real>, interval: real, time: real)
    requires interval > 0.0 && Spaced(times, interval) && times != []
    ensures Held(LastRun(times, 0.0), time, interval)
            <==> exists i :: 0 <= i < |times| && time - times[i] < interval
  {
    var last := |times| - 1;
    if Held(times[last], time, interval) {
      assert time - times[last] < interval;
    }
    if i :| 0 <= i < |times| && time - times[i] < interval {
      FarApart(times, interval, i, last);
      assert (last - i) as real * interval >= 0.0;
    }
  }

  /** The answer that the accepted times before an event call for. */
  function Judge(e: Event, sent: seq<real>, adverts: seq<real>, unused: real,
                 messageInterval: real, advertInterval: real): Answer {
    if e.Leave? then Accepted
    else if Held(LastRun(sent, 0.0), e.time, messageInterval) then HeldBack
    else if !e.Advert? then Accepted
    else if e.open && !Held(LastRun(adverts, unused), e.time, advertInterval) then Accepted
    else Refused
  }

  /** The accepted ads that an event is judged by, and what the timer read before them. */
  function AdvertsBefore(adverts: seq<seq<real>>, unused: seq<real>, events: seq<Event>, answers: seq<Answer>, e: Event)
    : (seq<real>, real)
    requires |answers| == |events| && |adverts| == |unused| && InRange(e, |adverts|)
  {
    if !e.Advert? then ([], 0.0)
    else
      var k := e.channel;
      (AdvertTimes(adverts[k], events, answers, k), UnusedReading(unused[k], events, k))
  }

  /** Each answer is the one that the accepted times before its event call for. */
  ghost predicate Judged(sent: seq<real>, adverts: seq<seq<real>>, unused: seq<real>, events: seq<Event>,
                         answers: seq<Answer>, messageInterval: real, advertInterval: real)
    requires |answers| == |events| && |adverts| == |unused|
    requires forall i :: 0 <= i < |events| ==> InRange(events[i], |adverts|)
  {
    forall i :: 0 <= i < |events| ==>
      var e, before, verdicts := events[i], events[..i], answers[..i];
      assert InRange(e, |adverts|);
      var (ads, never) := AdvertsBefore(adverts, unused, before, verdicts, e);
      answers[i] == Judge(e, sent + MessageTimes(before, verdicts), ads, never, messageInterval, advertInterval)
  }

  lemma JudgedOneMore(sent: seq<real>, adverts: seq<seq<real>>, unused: seq<real>, events: seq<Event>,
                      answers: seq<Answer>, e: Event, answer: Answer, messageInterval: real, advertInterval: real)
    requires |answers| == |events| && |adverts| == |unused|
    requires forall i :: 0 <= i < |events| ==> InRange(events[i], |adverts|)
    requires InRange(e, |adverts|) && Judged(sent, adverts, unused, events, answers, messageInterval, advertInterval)
    requires var (ads, never) := AdvertsBefore(adverts, unused, events, answers, e);
             answer == Judge(e, sent + MessageTimes(events, answers), ads, never, messageInterval, advertInterval)
    ensures Judged(sent, adverts, unused, events + [e], answers + [answer], messageInterval, advertInterval)
  {
    hide Judge, UnusedReading, MessageTimes, AdvertTimes;
    var more, verdicts := events + [e], answers + [answer];
    forall i | 0 <= i < |more|
      ensures more[..i] == events[..i] && verdicts[..i] == answers[..i]
    {
    }
    assert events[..|events|] == events && answers[..|answers|] == answers;
    assert forall i :: 0 <= i < |events| ==> more[i] == events[i] && verdicts[i] == answers[i];
  }

  predicate InRange(e: Event, channels: nat) {
    e.Advert? || e.Leave? ==> e.channel < channels
  }

  class Connection {
    const name: Name
    const messageInterval: real
    const advertInterval: real
    const channels: seq<Channel>
    var timers: map<string, real>

    // The accepted attempts: on the message timer, and the ads of each channel
    // since its last leaving; `unused` is what a channel's timer read before them.
    ghost var sent: seq<real>
    ghost var adverts: seq<seq<real>>
    ghost var unused: seq<real>

    ghost predicate Shaped()
      reads this
    {
      && messageInterval > 0.0 && advertInterval > 0.0 && |adverts| == |unused| == |channels|
      && forall i, j :: 0 <= i < j < |channels| ==> channels[i] != channels[j]
    }

    ghost predicate MessagesKept()
      reads this
    {
      && Spaced(sent, messageInterval)
      && (if "msg" in timers then timers["msg"] else 0.0) == LastRun(sent, 0.0)
    }

    ghost predicate AdvertsKept(k: nat)
      requires k < |channels| && |adverts| == |unused| == |channels|
      reads this, channels
    {
      Spaced(adverts[k], advertInterval) && channels[k].GetTimerEntry(name) == LastRun(adverts[k], unused[k])
    }

    /** The timers hold the last accepted times, and those are far enough apart. */
    ghost predicate Valid()
      reads this, channels
    {
      Shaped() && MessagesKept() && forall k :: 0 <= k < |channels| ==> AdvertsKept(k)
    }

    constructor (name: Name, messageInterval: real, advertInterval: real, channels: seq<Channel>)
      requires messageInterval > 0.0 && advertInterval > 0.0
      requires forall i, j :: 0 <= i < j < |channels| ==> channels[i] != channels[j]
      ensures Valid() && sent == []
      ensures this.name == name && this.channels == channels
      ensures this.messageInterval == messageInterval && this.advertInterval == advertInterval
      ensures adverts == seq(|channels|, i => [])
      ensures unused == seq(|channels|, i requires 0 <= i < |channels| reads channels => channels[i].GetTimerEntry(name))
    {
      this.name, this.channels := name, channels;
      this.messageInterval, this.advertInterval := messageInterval, advertInterval;
      timers, sent := map[], [];
      adverts := seq(|channels|, i => []);
      unused := seq(|channels|, i requires 0 <= i < |channels| reads channels => channels[i].GetTimerEntry(name));
    }

    /** A timer never used counts as last run at zero, and asking records that. */
    method CheckUpdateTimer(timer: string, timeout: real, time: real) returns (held: bool)
      modifies `timers
      ensures var last := if timer in old(timers) then old(timers)[timer] else 0.0;
              held == Held(last, time, timeout) && timers == old(timers)[timer := if held then last else time]
    {
      held := false;
      if timer !in timers {
        timers := timers[timer := 0.0];
      }
      if timers[timer] > time - timeout {
        held := true;
      } else {
        timers := timers[timer := time];
      }
    }

    /** A message, a private message, a roll, or the first check of an ad. */
    method Speak(time: real) returns (held: bool)
      requires Valid()
      modifies `timers, `sent
      ensures Valid()
      ensures held == Held(LastRun(old(sent), 0.0), time, messageInterval)
      ensures sent == if held then old(sent) else old(sent) + [time]
    {
      held := CheckUpdateTimer("msg", messageInterval, time);
      if !held {
        OneMore(sent, messageInterval, time);
        sent := sent + [time];
      }
      assert forall k :: 0 <= k < |channels| ==> old(AdvertsKept(k)) ==> AdvertsKept(k);
    }

    /** An ad passes both timers; the message timer starts again even when the ad
        is then refused. */
    method Advertise(k: nat, open: bool, time: real) returns (answer: Answer)
      requires Valid() && k < |channels|
      modifies `timers, `sent, `adverts, channels[k]
      ensures Valid()
      ensures answer == Judge(Advert(k, open, time), old(sent), old(adverts[k]), old(unused[k]), messageInterval, advertInterval)
      ensures sent == if answer == HeldBack then old(sent) else old(sent) + [time]
      ensures adverts == if answer == Accepted then old(adverts)[k := old(adverts)[k] + [time]] else old(adverts)
    {
      var held := Speak(time);
      if held {
        return HeldBack;
      }
      if !open {
        return Refused;
      }
      assert AdvertsKept(k);
      held := channels[k].CheckUpdateTimer(name, advertInterval, time);
      if !held {
        OneMore(adverts[k], advertInterval, time);
        adverts := adverts[k := adverts[k] + [time]];
      }
      answer := if held then Refused else Accepted;
      forall j | 0 <= j < |channels| && j != k
        ensures AdvertsKept(j)
      {
        assert old(AdvertsKept(j)) && channels[j] != channels[k];
      }
    }

    method Part(k: nat)
      requires Valid() && k < |channels|
      modifies `adverts, `unused, channels[k]
      ensures Valid() && sent == old(sent)
      ensures adverts == old(adverts)[k := []] && unused == old(unused)[k := -1.0]
    {
      channels[k].Part(name);
      adverts, unused := adverts[k := []], unused[k := -1.0];
      forall j | 0 <= j < |channels| && j != k
        ensures AdvertsKept(j)
      {
        assert old(AdvertsKept(j)) && channels[j] != channels[k];
      }
    }

    /** The accepted ads that an event is judged by, and what the timer read before them. */
    ghost function AdvertsFor(e: Event): (seq<real>, real)
      requires Shaped() && InRange(e, |channels|)
      reads this
    {
      if e.Advert? then (adverts[e.channel], unused[e.channel]) else ([], 0.0)
    }

    method Perform(e: Event) returns (answer: Answer)
      requires Valid() && InRange(e, |channels|)
      modifies `timers, `sent, `adverts, `unused, channels
      ensures Valid()
      ensures var (ads, never) := old(AdvertsFor(e));
              answer == Judge(e, old(sent), ads, never, messageInterval, advertInterval)
      ensures sent == if e.Leave? || answer == HeldBack then old(sent) else old(sent) + [e.time]
      ensures adverts
              == if e.Leave? then old(adverts)[e.channel := []]
                 else if e.Advert? && answer == Accepted then old(adverts)[e.channel := old(adverts)[e.channel] + [e.time]]
                 else old(adverts)
      ensures unused == if e.Leave? then old(unused)[e.channel := -1.0] else old(unused)
    {
      answer := Accepted;
      match e
      case Advert(channel, open, time) => answer := Advertise(channel, open, time);
      case Leave(channel, _) => Part(channel);
      case _ =>
        var held := Speak(e.time);
        if held {
          answer := HeldBack;
        }
    }

    /** Over any conversation: the accepted times are those of exactly the events
        that were let through, every answer is the one these times call for, and
        messages, private messages, rolls and ads together keep to the message
        interval, as the ads of a channel keep to the ad interval until it is left. */
    method Converse(events: seq<Event>) returns (answers: seq<Answer>)
      requires Valid() && forall i :: 0 <= i < |events| ==> InRange(events[i], |channels|)
      modifies `timers, `sent, `adverts, `unused, channels
      ensures Valid() && |answers| == |events|
      ensures sent == old(sent) + MessageTimes(events, answers)
      ensures forall k :: 0 <= k < |channels| ==> adverts[k] == AdvertTimes(old(adverts)[k], events, answers, k)
      ensures Judged(old(sent), old(adverts), old(unused), events, answers, messageInterval, advertInterval)
      ensures Throttled(sent, messageInterval)
      ensures forall k :: 0 <= k < |channels| ==> Throttled(adverts[k], advertInterval)
    {
      hide Judge, MessageTimes, AdvertTimes, UnusedReading, Spaced, Throttled;
      NoTimes();
      answers := [];
      for i := 0 to |events|
        invariant Valid() && |answers| == i
        invariant sent == old(sent) + MessageTimes(events[..i], answers)
        invariant forall k :: 0 <= k < |channels| ==>
                    && adverts[k] == AdvertTimes(old(adverts)[k], events[..i], answers, k)
                    && unused[k] == UnusedReading(old(unused)[k], events[..i], k)
        invariant Judged(old(sent), old(adverts), old(unused), events[..i], answers, messageInterval, advertInterval)
      {
        var e := events[i];
        assert events[..i + 1] == events[..i] + [e];
        var answer := Perform(e);
        JudgedOneMore(old(sent), old(adverts), old(unused), events[..i], answers, e, answer, messageInterval, advertInterval);
        forall k | 0 <= k < |channels|
          ensures adverts[k] == AdvertTimes(old(adverts)[k], events[..i + 1], answers + [answer], k)
          ensures unused[k] == UnusedReading(old(unused)[k], events[..i + 1], k)
        {
          TimesOneMore(events[..i], answers, e, answer, old(adverts)[k], k);
          UnusedOneMore(old(unused)[k], events[..i], e, k);
        }
        TimesOneMore(events[..i], answers, e, answer, [], 0);
        answers := answers + [answer];
      }
      assert events[..|events|] == events;
      SpacedIsThrottled(sent, messageInterval);
      forall k | 0 <= k < |channels|
        ensures Throttled(adverts[k], advertInterval)
      {
        assert AdvertsKept(k);
        SpacedIsThrottled(adverts[k], advertInterval);
      }
    }
  }
}
