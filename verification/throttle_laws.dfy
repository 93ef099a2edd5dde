/** The answers of a conversation, said of the events and answers alone: no timer
    and no list of accepted times. */
module ThrottleLaws {
  import opened Throttle

  /** Event j was something other than leaving, and the message timer let it through. */
  predicate Passed(events: seq<Event>, answers: seq<Answer>, j: nat)
    requires j < |events| == |answers|
  {
    !events[j].Leave? && answers[j] != HeldBack
  }

  predicate Leaves(e: Event, k: nat) {
    e.Leave? && e.channel == k
  }

  /** Event j is an ad accepted in channel k, which was not left between j and i. */
  predicate Stands(events: seq<Event>, answers: seq<Answer>, k: nat, j: nat, i: nat)
    requires j < i <= |events| == |answers|
  {
    && events[j].Advert? && events[j].channel == k && answers[j] == Accepted
    && forall l :: j < l < i ==> !Leaves(events[l], k)
  }

  /** Before event i an attempt passed the message timer less than an interval ago;
      before the first one the timer reads zero. */
  ghost predicate TooSoon(events: seq<Event>, answers: seq<Answer>, i: nat, interval: real)
    requires i < |events| == |answers|
  {
    || (exists j :: 0 <= j < i && Passed(events, answers, j) && events[i].time - events[j].time < interval)
    || (events[i].time < interval && forall j :: 0 <= j < i ==> !Passed(events, answers, j))
  }

  /** Before event i an ad was accepted in channel k less than an interval ago and
      since the channel was last left; before the first one the timer reads minus one. */
  ghost predicate AdTooSoon(events: seq<Event>, answers: seq<Answer>, k: nat, i: nat, interval: real)
    requires i < |events| == |answers|
  {
    || (exists j :: 0 <= j < i && Stands(events, answers, k, j, i) && events[i].time - events[j].time < interval)
    || (events[i].time < interval - 1.0 && forall j :: 0 <= j < i ==> !Stands(events, answers, k, j, i))
  }

  /** A conversation of a new connection, with no ads in its name before it. */
  ghost predicate Fresh(events: seq<Event>, answers: seq<Answer>, channels: nat, messageInterval: real, advertInterval: real) {
    && messageInterval > 0.0 && advertInterval > 0.0 && |answers| == |events|
    && (forall i :: 0 <= i < |events| ==> InRange(events[i], channels))
    && Judged([], seq(channels, i => []), seq(channels, i => -1.0), events, answers, messageInterval, advertInterval)
  }

  /** What the answer to event i is judged by. */
  lemma AnswerIs(events: seq<Event>, answers: seq<Answer>, channels: nat, i: nat, messageInterval: real, advertInterval: real)
    requires Fresh(events, answers, channels, messageInterval, advertInterval) && i < |events|
    ensures var e := events[i];
            answers[i] == Judge(e, MessageTimes(events[..i], answers[..i]),
                                if e.Advert? then AdvertTimes([], events[..i], answers[..i], e.channel) else [],
                                if e.Advert? then -1.0 else 0.0, messageInterval, advertInterval)
  {
    hide Judge, MessageTimes, AdvertTimes;
    assert InRange(events[i], channels);
    assert [] + MessageTimes(events[..i], answers[..i]) == MessageTimes(events[..i], answers[..i]);
  }

  /** The last of the accepted times is the latest event that passed. */
  lemma {:induction false} LastToPass(events: seq<Event>, answers: seq<Answer>, channels: nat, i: nat,
                                      messageInterval: real, advertInterval: real)
    returns (latest: nat)
    requires Fresh(events, answers, channels, messageInterval, advertInterval) && i <= |events|
    ensures var times := MessageTimes(events[..i], answers[..i]);
            if times == [] then forall j :: 0 <= j < i ==> !Passed(events, answers, j)
            else
              && latest < i && Passed(events, answers, latest) && events[latest].time == LastRun(times, 0.0)
              && forall j :: 0 <= j < i && Passed(events, answers, j) ==> events[j].time <= events[latest].time
    decreases i
  {
    hide MessageTimes, AdvertTimes, Judged;
    latest := 0;
    if i == 0 {
      NoTimes();
      assert events[..0] == [] && answers[..0] == [];
    } else {
      var p := i - 1;
      latest := LastToPass(events, answers, channels, p, messageInterval, advertInterval);
      SplitLast(events, answers, i);
      TimesOneMore(events[..p], answers[..p], events[p], answers[p], [], 0);
      AnswerIs(events, answers, channels, p, messageInterval, advertInterval);
      if Passed(events, answers, p) {
        latest := p;
      }
    }
  }

  lemma SplitLast(events: seq<Event>, answers: seq<Answer>, i: nat)
    requires 0 < i <= |events| == |answers|
    ensures events[..i] == events[..i - 1] + [events[i - 1]] && answers[..i] == answers[..i - 1] + [answers[i - 1]]
  {
  }

  /** An ad stands one event longer unless that event leaves the channel. */
  lemma StandsOneMore(events: seq<Event>, answers: seq<Answer>, k: nat, j: nat, i: nat)
    requires j < i < |events| == |answers|
    ensures Stands(events, answers, k, j, i + 1) <==> Stands(events, answers, k, j, i) && !Leaves(events[i], k)
  {
  }

  /** The last of a channel's accepted times is its latest ad that stands. */
  lemma {:induction false} LastToStand(events: seq<Event>, answers: seq<Answer>, channels: nat, k: nat, i: nat,
                                       messageInterval: real, advertInterval: real)
    returns (latest: nat)
    requires Fresh(events, answers, channels, messageInterval, advertInterval) && i <= |events|
    ensures var times := AdvertTimes([], events[..i], answers[..i], k);
            if times == [] then forall j :: 0 <= j < i ==> !Stands(events, answers, k, j, i)
            else
              && latest < i && Stands(events, answers, k, latest, i) && events[latest].time == LastRun(times, -1.0)
              && forall j :: 0 <= j < i && Stands(events, answers, k, j, i) ==> events[j].time <= events[latest].time
    decreases i
  {
    hide MessageTimes, AdvertTimes, Judged, Stands;
    latest := 0;
    if i == 0 {
      NoTimes();
      assert events[..0] == [] && answers[..0] == [];
    } else {
      var p := i - 1;
      latest := LastToStand(events, answers, channels, k, p, messageInterval, advertInterval);
      SplitLast(events, answers, i);
      TimesOneMore(events[..p], answers[..p], events[p], answers[p], [], k);
      AnswerIs(events, answers, channels, p, messageInterval, advertInterval);
      forall j | 0 <= j < p
        ensures Stands(events, answers, k, j, i) <==> Stands(events, answers, k, j, p) && !Leaves(events[p], k)
      {
        StandsOneMore(events, answers, k, j, p);
      }
      StandsFirst(events, answers, k, p);
      if Stands(events, answers, k, p, i) {
        latest := p;
      }
    }
  }

  lemma StandsFirst(events: seq<Event>, answers: seq<Answer>, k: nat, j: nat)
    requires j < |events| == |answers|
    ensures Stands(events, answers, k, j, j + 1) <==> events[j].Advert? && events[j].channel == k && answers[j] == Accepted
  {
  }

  /** An event is held back exactly when something passed less than an interval
      before it. */
  lemma HeldBackLaw(events: seq<Event>, answers: seq<Answer>, channels: nat, i: nat, messageInterval: real, advertInterval: real)
    requires Fresh(events, answers, channels, messageInterval, advertInterval) && i < |events|
    ensures answers[i] == HeldBack <==> !events[i].Leave? && TooSoon(events, answers, i, messageInterval)
  {
    hide Judged, MessageTimes, AdvertTimes;
    AnswerIs(events, answers, channels, i, messageInterval, advertInterval);
    var latest := LastToPass(events, answers, channels, i, messageInterval, advertInterval);
  }

  /** Every answer: leaving is never refused; a message, private message or roll goes
      through unless held back; an ad not held back goes through exactly when the
      channel admits it and no ad of that channel went through less than an interval
      ago and since it was last left. */
  lemma ConversationLaw(events: seq<Event>, answers: seq<Answer>, channels: nat, i: nat, messageInterval: real, advertInterval: real)
    requires Fresh(events, answers, channels, messageInterval, advertInterval) && i < |events|
    ensures answers[i] == HeldBack <==> !events[i].Leave? && TooSoon(events, answers, i, messageInterval)
    ensures answers[i] == Refused
            <==> && events[i].Advert? && !TooSoon(events, answers, i, messageInterval)
                 && (events[i].open ==> AdTooSoon(events, answers, events[i].channel, i, advertInterval))
  {
    hide Judged, MessageTimes, AdvertTimes, TooSoon, Stands;
    HeldBackLaw(events, answers, channels, i, messageInterval, advertInterval);
    AnswerIs(events, answers, channels, i, messageInterval, advertInterval);
    if events[i].Advert? {
      var latest := LastToStand(events, answers, channels, events[i].channel, i, messageInterval, advertInterval);
    }
  }

  /** A new connection in channels it never posted to, asked to converse: its answers
      are the ones of the law. */
  method ConverseAnew(name: Name, messageInterval: real, advertInterval: real, channels: seq<Channel>, events: seq<Event>)
    returns (answers: seq<Answer>)
    requires messageInterval > 0.0 && advertInterval > 0.0
    requires forall i, j :: 0 <= i < j < |channels| ==> channels[i] != channels[j]
    requires forall i :: 0 <= i < |channels| ==> channels[i].GetTimerEntry(name) == -1.0
    requires forall i :: 0 <= i < |events| ==> InRange(events[i], |channels|)
    modifies channels
    ensures |answers| == |events|
    ensures forall i :: 0 <= i < |events| ==>
              && (answers[i] == HeldBack <==> !events[i].Leave? && TooSoon(events, answers, i, messageInterval))
              && (answers[i] == Refused
                  <==> && events[i].Advert? && !TooSoon(events, answers, i, messageInterval)
                       && (events[i].open ==> AdTooSoon(events, answers, events[i].channel, i, advertInterval)))
  {
    hide Judged, TooSoon, AdTooSoon;
    var connection := new Connection(name, messageInterval, advertInterval, channels);
    ghost var unused := connection.unused;
    assert unused == seq(|channels|, i => -1.0);
    answers := connection.Converse(events);
    assert Fresh(events, answers, |channels|, messageInterval, advertInterval);
    forall i | 0 <= i < |events| {
      ConversationLaw(events, answers, |channels|, i, messageInterval, advertInterval);
    }
  }
}
