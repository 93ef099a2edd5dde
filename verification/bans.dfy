/** A channel's bans and timeouts. Expired timeouts are erased late: by a query that
    meets them, or by a cleaning before a count. This is shown not to be visible
    to anybody who asks whether a name is banned or how many bans there are. */
module Bans {
  import opened RegistrySpec

  type Records = map<Name, BanRecord>

  /** What the channel is asked and told, each at its time. */
  datatype Request =
    | Ban(banner: Name, target: Name)
    | TimeOut(banner: Name, target: Name, length: int)
    | Unban(target: Name)
    | IsBanned(target: Name)
    | BanCount
    | Clean

  datatype Answer = Done | YesNo(banned: bool) | Count(n: nat)

  /** The declarative reading: the last record of a name stays until it is lifted
      or replaced; whether it counts is a matter of the time. */
  function Recorded(records: Records, request: Request, now: int): Records {
    match request
    case Ban(banner, target) => records[target := BanRecord(banner, now, 0)]
    case TimeOut(banner, target, length) => records[target := BanRecord(banner, now, now + length)]
    case Unban(target) => records - {target}
    case _ => records
  }

  predicate Holds(records: Records, name: Name, now: int) {
    name in records && records[name].Active(now)
  }

  function Active(records: Records, now: int): set<Name> {
    set n | n in records && records[n].Active(now)
  }

  function Told(records: Records, request: Request, now: int): Answer {
    match request
    case IsBanned(target) => YesNo(Holds(records, target, now))
    case BanCount => Count(|Active(records, now)|)
    case _ => Done
  }

  function Replies(records: Records, requests: seq<(int, Request)>): (answers: seq<Answer>)
    ensures |answers| == |requests|
    decreases |requests|
  {
    if requests == [] then []
    else
      var (now, request) := requests[0];
      [Told(records, request, now)] + Replies(Recorded(records, request, now), requests[1..])
  }

  /** Times never run backwards, starting from `now`. */
  predicate Ordered(now: int, requests: seq<(int, Request)>)
    decreases |requests|
  {
    requests == [] || (now <= requests[0].0 && Ordered(requests[0].0, requests[1..]))
  }

  /** The stored records are among those recorded and lack only expired ones. */
  predicate Lazily(stored: Records, recorded: Records, now: int) {
    && (forall n :: n in stored ==> n in recorded && recorded[n] == stored[n])
    && (forall n :: n in recorded && recorded[n].Active(now) ==> n in stored)
  }

  lemma LaterToo(stored: Records, recorded: Records, now: int, later: int)
    requires Lazily(stored, recorded, now) && now <= later
    ensures Lazily(stored, recorded, later)
  {
    assert forall n :: n in recorded && recorded[n].Active(later) ==> recorded[n].Active(now);
  }

  class Channel {
    var bans: Records

    /** Every record ever made and not lifted, expired or not. */
    ghost var recorded: Records
    ghost var latest: int

    ghost predicate Valid()
      reads this
    {
      Lazily(bans, recorded, latest)
    }

    constructor (ghost now: int)
      ensures Valid() && bans == map[] && recorded == map[] && latest == now
    {
      bans, recorded, latest := map[], map[], now;
    }

    method Write(target: Name, record: BanRecord, ghost now: int)
      requires Valid() && latest <= now
      modifies this
      ensures Valid() && latest == now && bans == old(bans)[target := record]
      ensures recorded == old(recorded)[target := record]
    {
      LaterToo(bans, recorded, latest, now);
      bans := bans[target := record];
      recorded, latest := recorded[target := record], now;
    }

    method Lift(target: Name, ghost now: int)
      requires Valid() && latest <= now
      modifies this
      ensures Valid() && latest == now && recorded == old(recorded) - {target}
    {
      LaterToo(bans, recorded, latest, now);
      bans := bans - {target};
      recorded, latest := recorded - {target}, now;
    }

    /** Whether a name is banned; an expired record is erased on the way. */
    method IsBanned(name: Name, now: int) returns (banned: bool)
      requires Valid() && latest <= now
      modifies `bans, `latest
      ensures Valid() && latest == now
      ensures banned == Holds(recorded, name, now)
      ensures banned <==> name in bans
    {
      LaterToo(bans, recorded, latest, now);
      latest := now;
      banned := false;
      if name in bans {
        var b := bans[name];
        if b.timeout == 0 || b.timeout >= now {
          banned := true;
        } else {
          bans := bans - {name};
        }
      }
    }

    /** The raw record. It may have expired, unless IsBanned has just said yes. */
    method GetBan(name: Name) returns (found: bool, ban: BanRecord)
      requires Valid()
      ensures found == (name in bans)
      ensures found ==> name in recorded && ban == recorded[name]
    {
      found, ban := name in bans, if name in bans then bans[name] else BanRecord("", 0, 0);
    }

    /** Erases every expired record. */
    method CleanExpiredTimeouts(now: int)
      requires Valid() && latest <= now
      modifies `bans, `latest
      ensures Valid() && latest == now
      ensures bans.Keys == Active(recorded, now)
    {
      LaterToo(bans, recorded, latest, now);
      latest := now;
      var toRemove: seq<Name> := [];
      var todo := bans.Keys;
      while todo != {}
        invariant todo <= bans.Keys
        invariant forall n :: n in toRemove <==> n in bans && n !in todo && !bans[n].Active(now)
        decreases todo
      {
        var n :| n in todo;
        if bans[n].timeout != 0 && bans[n].timeout < now {
          toRemove := toRemove + [n];
        }
        todo := todo - {n};
      }
      ghost var before := bans;
      assert forall n :: n in toRemove <==> n in before && !before[n].Active(now);
      var i := 0;
      while i < |toRemove|
        invariant 0 <= i <= |toRemove| && latest == now
        invariant forall n :: n in bans <==> n in before && n !in toRemove[..i]
        invariant forall n :: n in bans ==> bans[n] == before[n]
      {
        bans := bans - {toRemove[i]};
        i := i + 1;
      }
      assert toRemove[..i] == toRemove;
      assert forall n :: n in bans <==> n in before && before[n].Active(now);
    }

    method GetBanCount(now: int) returns (n: nat)
      requires Valid() && latest <= now
      modifies `bans, `latest
      ensures Valid() && latest == now
      ensures n == |Active(recorded, now)|
    {
      CleanExpiredTimeouts(now);
      n := |bans|;
      assert |bans.Keys| == |bans|;
    }

    method Serve(request: Request, now: int) returns (answer: Answer)
      requires Valid() && latest <= now
      modifies this
      ensures Valid() && latest == now
      ensures answer == Told(old(recorded), request, now) && recorded == Recorded(old(recorded), request, now)
    {
      answer := Done;
      match request
      case Ban(banner, target) => Write(target, BanRecord(banner, now, 0), now);
      case TimeOut(banner, target, length) => Write(target, BanRecord(banner, now, now + length), now);
      case Unban(target) => Lift(target, now);
      case IsBanned(target) =>
        var banned := IsBanned(target, now);
        answer := YesNo(banned);
      case BanCount =>
        var n := GetBanCount(now);
        answer := Count(n);
      case Clean => CleanExpiredTimeouts(now);
    }

    /** However erasing queries and cleanings are interleaved, every answer is the
        declarative one. */
    method ServeAll(requests: seq<(int, Request)>) returns (answers: seq<Answer>)
      requires Valid() && Ordered(latest, requests)
      modifies this
      ensures Valid() && answers == Replies(old(recorded), requests)
    {
      answers := [];
      var i := 0;
      while i < |requests|
        invariant 0 <= i <= |requests| && Valid() && Ordered(latest, requests[i..])
        invariant answers + Replies(recorded, requests[i..]) == Replies(old(recorded), requests)
      {
        var (now, request) := requests[i];
        assert requests[i..][0] == requests[i] && requests[i..][1..] == requests[i + 1..];
        var answer := Serve(request, now);
        answers := answers + [answer];
        i := i + 1;
      }
      assert requests[i..] == [];
    }
  }

  /** A registry room's bans, read at a time, are these. */
  lemma RoomReading(room: Room, name: Name, now: int)
    ensures Banned(room, name, now) == Holds(room.bans, name, now)
    ensures ActiveBans(room, now) == Active(room.bans, now)
  {
  }

  // -------------------------------------------------------------------------
  // How long a record lasts, on the answers

  function After(records: Records, requests: seq<(int, Request)>): Records
    decreases |requests|
  {
    if requests == [] then records else After(Recorded(records, requests[0].1, requests[0].0), requests[1..])
  }

  predicate Touches(request: Request, name: Name) {
    (request.Ban? || request.TimeOut? || request.Unban?) && request.target == name
  }

  lemma {:induction false} RepliesAppend(records: Records, a: seq<(int, Request)>, b: seq<(int, Request)>)
    ensures Replies(records, a + b) == Replies(records, a) + Replies(After(records, a), b)
    decreases |a|
  {
    if a == [] {
      assert a + b == b;
    } else {
      assert (a + b)[0] == a[0] && (a + b)[1..] == a[1..] + b;
      RepliesAppend(Recorded(records, a[0].1, a[0].0), a[1..], b);
    }
  }

  lemma {:induction false} KeptThrough(records: Records, requests: seq<(int, Request)>, name: Name)
    requires forall i :: 0 <= i < |requests| ==> !Touches(requests[i].1, name)
    ensures name in After(records, requests) <==> name in records
    ensures name in records ==> After(records, requests)[name] == records[name]
    decreases |requests|
  {
    if requests != [] {
      assert !Touches(requests[0].1, name);
      KeptThrough(Recorded(records, requests[0].1, requests[0].0), requests[1..], name);
    }
  }

  /** Asked whether a name is banned, with no other record of it written or lifted in
      between: after a ban always yes, after a timeout yes up to its end (an end at
      time zero means none), after lifting no. */
  lemma RecordLasts(records: Records, at: int, write: Request, between: seq<(int, Request)>, now: int, name: Name)
    requires Touches(write, name) && forall i :: 0 <= i < |between| ==> !Touches(between[i].1, name)
    ensures var answers := Replies(records, [(at, write)] + between + [(now, IsBanned(name))]);
            && |answers| == |between| + 2
            && answers[|between| + 1] == YesNo(match write
                                               case Ban(_, _) => true
                                               case TimeOut(_, _, length) => at + length == 0 || now <= at + length
                                               case _ => false)
  {
    hide Replies, After;
    var first: seq<(int, Request)> := [(at, write)];
    var last: seq<(int, Request)> := [(now, IsBanned(name))];
    RepliesAppend(records, first + between, last);
    AfterWrite(records, at, write, between);
    KeptThrough(Recorded(records, write, at), between, name);
    OneReply(After(records, first + between), now, IsBanned(name));
  }

  lemma AfterWrite(records: Records, at: int, write: Request, between: seq<(int, Request)>)
    ensures After(records, [(at, write)] + between) == After(Recorded(records, write, at), between)
  {
    var all := [(at, write)] + between;
    assert all[0] == (at, write) && all[1..] == between;
  }

  lemma OneReply(records: Records, now: int, request: Request)
    ensures Replies(records, [(now, request)]) == [Told(records, request, now)]
  {
    assert [(now, request)][1..] == [];
    assert Replies(Recorded(records, request, now), []) == [];
  }

  /** A name never written about is not banned, and the count is that of the records
      that have not run out. */
  lemma CountsAndStrangers(records: Records, between: seq<(int, Request)>, now: int, name: Name)
    requires name !in records && forall i :: 0 <= i < |between| ==> !Touches(between[i].1, name)
    ensures var answers := Replies(records, between + [(now, IsBanned(name)), (now, BanCount)]);
            && |answers| == |between| + 2 && answers[|between|] == YesNo(false)
            && var left := After(records, between);
               answers[|between| + 1] == Count(|set n | n in left && (left[n].timeout == 0 || now <= left[n].timeout)|)
  {
    hide After;
    var left := After(records, between);
    RepliesAppend(records, between, [(now, IsBanned(name)), (now, BanCount)]);
    KeptThrough(records, between, name);
    assert [(now, IsBanned(name)), (now, BanCount)][1..] == [(now, BanCount)];
    OneReply(left, now, BanCount);
    assert Replies(left, [(now, IsBanned(name)), (now, BanCount)]) == [YesNo(false)] + Replies(left, [(now, BanCount)]);
    assert Active(left, now) == set n | n in left && (left[n].timeout == 0 || now <= left[n].timeout);
  }
}
