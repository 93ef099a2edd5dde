/** The server's own registry: connections, channels and the overlapping maps,
    lists and counters over them, updated in place by the event handlers. The
    ghost field `world` is what all of it means, and every handler is proved to
    change that meaning exactly as the module RegistrySpec says. */
module Registry {
  import opened Options
  import opened RegistrySpec
  import opened RegistryRuns

  class ConnectionInstance {
    const id: ConId
    var addr: Addr
    var upgraded: bool
    var authStarted: bool
    var identified: bool
    var closed: bool
    var delayClose: bool
    var characterName: Name
    var characterNameLower: Name
    var roles: set<Role>
    var unlimited: bool
    var channelList: set<Channel>
    /** Whether the login relay holds a request for it; the server keeps no such flag. */
    var pending: bool

    ghost function View(): Login
      reads `addr, `upgraded, `authStarted, `pending, `identified, `closed, `delayClose
      reads `characterName, `characterNameLower, `roles, `unlimited
    {
      Login(addr, upgraded, authStarted, pending, identified, closed, delayClose,
            characterName, characterNameLower, roles, unlimited)
    }

    predicate AdminOrGlobal()
      reads `roles
    {
      Admin in roles || Global in roles
    }

    constructor (id: ConId, addr: Addr)
      ensures this.id == id && View() == NewLogin(addr) && channelList == {}
    {
      this.id, this.addr := id, addr;
      upgraded, authStarted, identified, closed, delayClose := false, false, false, false, false;
      characterName, characterNameLower, roles, unlimited, channelList := "", "", {}, false, {};
      pending := false;
    }
  }

  class Channel {
    const name: Name
    var kind: RoomKind
    var canDestroy: bool
    var participants: set<ConnectionInstance>
    var participantCount: int
    var topUsers: int
    var owner: Name
    var moderators: set<Name>
    var invites: set<Name>
    var bans: map<Name, BanRecord>

    ghost function View(): Room
      reads `kind, `canDestroy, `topUsers, `owner, `moderators, `invites, `bans
    {
      Room(name, kind, canDestroy, topUsers, owner, moderators, invites, bans)
    }

    predicate IsOwner(con: ConnectionInstance)
      reads `owner, con`characterName
    {
      owner == con.characterName
    }

    predicate IsMod(con: ConnectionInstance)
      reads `owner, `moderators, con`characterName
    {
      owner == con.characterName || con.characterName in moderators
    }

    predicate StaffOverride(con: ConnectionInstance)
      reads `kind, con`roles
    {
      con.AdminOrGlobal() || (kind == Public && SuperCop in con.roles)
    }

    /** Whom a kick, ban or timeout may not touch. */
    predicate Protects(target: ConnectionInstance, override: bool)
      reads `kind, `owner, `moderators, target`characterName, target`roles
    {
      if kind == Public && (IsMod(target) || target.roles != {}) then true
      else !override && (IsOwner(target) || Global in target.roles)
    }

    predicate IsBanned(lower: Name, now: int)
      reads `bans
    {
      lower in bans && bans[lower].Active(now)
    }

    function BanCount(now: int): int
      reads `bans
    {
      |set n | n in bans && bans[n].Active(now)|
    }

    constructor (name: Name, kind: RoomKind, owner: Name, invites: set<Name>)
      ensures View() == Room(name, kind, true, 0, owner, {}, invites, map[])
      ensures this.name == name && participants == {} && participantCount == 0
    {
      this.name, this.kind, this.owner, this.invites := name, kind, owner, invites;
      canDestroy, participants, participantCount, topUsers := true, {}, 0, 0;
      moderators, bans := {}, map[];
    }

    /** Adds a participant; the count goes up whether or not it was one already. */
    method Join(con: ConnectionInstance)
      modifies `participants, `participantCount, `topUsers, con`channelList
      ensures participantCount == old(participantCount) + 1
      ensures participants == old(participants) + {con}
      ensures con.channelList == old(con.channelList) + {this}
      ensures topUsers == if participantCount > old(topUsers) then participantCount else old(topUsers)
      ensures View() == old(View()).(top := topUsers)
    {
      participantCount := participantCount + 1;
      participants := participants + {con};
      con.channelList := con.channelList + {this};
      if participantCount > topUsers {
        topUsers := participantCount;
      }
    }

    /** Removes a participant; the count goes down whether or not it was one. */
    method Part(con: ConnectionInstance)
      modifies `participants, `participantCount, con`channelList
      ensures participantCount == old(participantCount) - 1
      ensures participants == old(participants) - {con}
      ensures con.channelList == old(con.channelList) - {this}
      ensures View() == old(View())
    {
      participantCount := participantCount - 1;
      participants := participants - {con};
      con.channelList := con.channelList - {this};
    }
  }

  function Ids(s: set<ConnectionInstance>): set<ConId> {
    set p | p in s :: p.id
  }

  lemma {:induction false} IdsSize(s: set<ConnectionInstance>)
    requires forall p, q :: p in s && q in s && p.id == q.id ==> p == q
    ensures |Ids(s)| == |s|
    decreases s
  {
    if s != {} {
      var p :| p in s;
      IdsSize(s - {p});
      assert Ids(s) == Ids(s - {p}) + {p.id};
    }
  }

  lemma SameAddresses(logins: map<ConId, Login>, c: ConId, login: Login)
    requires c in logins && login.identified == logins[c].identified && (login.identified ==> login.addr == logins[c].addr)
    ensures forall a :: LoggedInFrom(logins[c := login], a) == LoggedInFrom(logins, a)
  {
  }

  lemma OneMoreAddress(logins: map<ConId, Login>, c: ConId, login: Login, a: Addr)
    requires c in logins && !logins[c].identified && login.identified
    ensures |LoggedInFrom(logins[c := login], a)| == |LoggedInFrom(logins, a)| + if a == login.addr then 1 else 0
  {
    assert LoggedInFrom(logins[c := login], a)
           == if a == login.addr then LoggedInFrom(logins, a) + {c} else LoggedInFrom(logins, a);
  }

  lemma OneLessAddress(logins: map<ConId, Login>, rest: map<ConId, Login>, c: ConId, a: Addr)
    requires c in logins && logins[c].identified && (c in rest ==> !rest[c].identified)
    requires rest - {c} == logins - {c}
    ensures |LoggedInFrom(rest, a)| == |LoggedInFrom(logins, a)| - if a == logins[c].addr then 1 else 0
  {
    assert forall d :: d != c ==> (d in rest <==> d in rest - {c}) && (d in logins <==> d in logins - {c});
    assert forall d :: d in rest && d != c ==> rest[d] == (rest - {c})[d];
    assert forall d :: d in logins && d != c ==> logins[d] == (logins - {c})[d];
    assert LoggedInFrom(rest, a) == LoggedInFrom(logins, a) - {c};
    assert a == logins[c].addr ==> c in LoggedInFrom(logins, a);
  }

  predicate Distinct(s: seq<ConnectionInstance>) {
    forall i, j :: 0 <= i < j < |s| ==> s[i] != s[j]
  }

  /** A list with every occurrence of `x` removed. */
  function Without(s: seq<ConnectionInstance>, x: ConnectionInstance): seq<ConnectionInstance> {
    if s == [] then []
    else if s[0] == x then Without(s[1..], x)
    else [s[0]] + Without(s[1..], x)
  }

  lemma {:induction false} WithoutMeans(s: seq<ConnectionInstance>, x: ConnectionInstance)
    ensures x !in Without(s, x)
    ensures forall y :: y in Without(s, x) ==> y in s
    ensures forall y :: y in s && y != x ==> y in Without(s, x)
    ensures Distinct(s) ==> Distinct(Without(s, x))
  {
    if s != [] {
      WithoutMeans(s[1..], x);
      assert forall y :: y in s <==> y == s[0] || y in s[1..];
      if Distinct(s) {
        assert s[0] !in s[1..];
        assert Distinct(s[1..]);
        var r := Without(s, x);
        assert s[0] != x ==> r == [s[0]] + Without(s[1..], x);
      }
    }
  }

  function LowerNames(channels: set<Channel>): set<Name> {
    set ch | ch in channels :: Lower(ch.name)
  }

  lemma {:induction false} NamesSize(channels: set<Channel>)
    requires forall a, b :: a in channels && b in channels && Lower(a.name) == Lower(b.name) ==> a == b
    ensures |LowerNames(channels)| == |channels|
    decreases channels
  {
    hide Lower;
    if channels != {} {
      var ch :| ch in channels;
      NamesSize(channels - {ch});
      assert LowerNames(channels) == LowerNames(channels - {ch}) + {Lower(ch.name)};
      assert Lower(ch.name) !in LowerNames(channels - {ch});
    }
  }

  function CountAt(counts: map<Addr, int>, a: Addr): int {
    if a in counts then counts[a] else 0
  }

  ghost predicate KeyedById(objects: map<ConId, ConnectionInstance>) {
    forall c :: c in objects ==> objects[c].id == c
  }

  /** Connections are known by their identities, channels by their lower-case names. */
  ghost predicate KeysAgree(objects: map<ConId, ConnectionInstance>, channelMap: map<Name, Channel>, nextId: ConId) {
    && KeyedById(objects) && (forall c :: c in objects ==> c < nextId)
    && (forall r :: r in channelMap ==> Lower(channelMap[r].name) == r)
  }

  ghost predicate Known(objects: map<ConId, ConnectionInstance>, con: ConnectionInstance) {
    con.id in objects && objects[con.id] == con
  }

  /** Exactly the identified connections are in the map, each under its
      lower-case name. */
  ghost predicate NamesAgree(objects: map<ConId, ConnectionInstance>, connectionMap: map<Name, ConnectionInstance>,
                             logins: map<ConId, Login>)
  {
    && logins.Keys == objects.Keys
    && (forall n :: n in connectionMap ==>
          var con := connectionMap[n];
          Known(objects, con) && logins[con.id].identified && logins[con.id].lower == n)
    && (forall c :: c in objects && logins[c].identified ==>
          logins[c].lower in connectionMap && connectionMap[logins[c].lower] == objects[c])
  }

  /** Exactly the others are in the list of unidentified connections, once each. */
  ghost predicate ListAgrees(objects: map<ConId, ConnectionInstance>, list: seq<ConnectionInstance>,
                             logins: map<ConId, Login>)
  {
    && logins.Keys == objects.Keys
    && (forall p :: p in list ==> Known(objects, p) && !logins[p.id].identified)
    && (forall c :: c in objects && !logins[c].identified ==> objects[c] in list)
    && Distinct(list)
  }

  /** The counters agree with what they count. */
  ghost predicate CountsAgree(connectionMap: map<Name, ConnectionInstance>, counts: map<Addr, int>,
                              userCount: int, maxUserCount: int, logins: map<ConId, Login>)
  {
    && userCount == |connectionMap| && userCount <= maxUserCount
    && (forall a :: CountAt(counts, a) == |LoggedInFrom(logins, a)|)
  }

  /** No staff-call target keeps a connection alive that is not registered. */
  ghost predicate StaffAgrees(connectionMap: map<Name, ConnectionInstance>, targets: set<ConnectionInstance>) {
    targets <= connectionMap.Values
  }

  ghost predicate CountedUp(counts: map<Addr, int>, more: map<Addr, int>, addr: Addr) {
    forall a :: CountAt(more, a) == CountAt(counts, a) + if a == addr then 1 else 0
  }

  ghost predicate CountedDown(counts: map<Addr, int>, fewer: map<Addr, int>, addr: Addr) {
    forall a :: CountAt(fewer, a) ==
      if a != addr then CountAt(counts, a) else if CountAt(counts, a) <= 1 then 0 else CountAt(counts, a) - 1
  }

  // What a change to one login does to them

  lemma StillNamed(objects: map<ConId, ConnectionInstance>, connectionMap: map<Name, ConnectionInstance>,
                   logins: map<ConId, Login>, c: ConId, login: Login)
    requires NamesAgree(objects, connectionMap, logins) && c in logins
    requires login.identified == logins[c].identified && login.lower == logins[c].lower
    ensures NamesAgree(objects, connectionMap, logins[c := login])
  {
  }

  lemma StillListed(objects: map<ConId, ConnectionInstance>, list: seq<ConnectionInstance>,
                    logins: map<ConId, Login>, c: ConId, login: Login)
    requires ListAgrees(objects, list, logins) && c in logins && login.identified == logins[c].identified
    ensures ListAgrees(objects, list, logins[c := login])
  {
  }

  lemma NewlyNamed(objects: map<ConId, ConnectionInstance>, connectionMap: map<Name, ConnectionInstance>,
                   logins: map<ConId, Login>, con: ConnectionInstance, login: Login)
    requires NamesAgree(objects, connectionMap, logins) && Known(objects, con)
    requires login.identified && login.lower !in connectionMap && !logins[con.id].identified
    ensures NamesAgree(objects, connectionMap[login.lower := con], logins[con.id := login])
  {
  }

  lemma NewlyUnlisted(objects: map<ConId, ConnectionInstance>, list: seq<ConnectionInstance>,
                      logins: map<ConId, Login>, con: ConnectionInstance, login: Login)
    requires KeyedById(objects)
    requires ListAgrees(objects, list, logins) && Known(objects, con) && login.identified
    ensures ListAgrees(objects, Without(list, con), logins[con.id := login])
  {
    WithoutMeans(list, con);
    var rest, after := Without(list, con), logins[con.id := login];
    assert forall c :: c in objects && c != con.id && !logins[c].identified ==> objects[c] in rest;
    assert forall p :: p in rest ==> Known(objects, p) && p.id != con.id && !after[p.id].identified;
    assert Distinct(rest);
  }

  lemma NewlyCounted(connectionMap: map<Name, ConnectionInstance>, counts: map<Addr, int>, more: map<Addr, int>,
                     userCount: int, maxUserCount: int, logins: map<ConId, Login>, con: ConnectionInstance, login: Login)
    requires CountsAgree(connectionMap, counts, userCount, maxUserCount, logins)
    requires con.id in logins && !logins[con.id].identified && login.identified && login.lower !in connectionMap
    requires CountedUp(counts, more, login.addr)
    ensures CountsAgree(connectionMap[login.lower := con], more, userCount + 1,
                        if userCount + 1 > maxUserCount then userCount + 1 else maxUserCount, logins[con.id := login])
  {
    forall a
      ensures CountAt(more, a) == |LoggedInFrom(logins[con.id := login], a)|
    {
      OneMoreAddress(logins, con.id, login, a);
    }
  }

  lemma TargetsStay(connectionMap: map<Name, ConnectionInstance>, name: Name, con: ConnectionInstance,
                    targets: set<ConnectionInstance>)
    requires StaffAgrees(connectionMap, targets) && name !in connectionMap
    ensures StaffAgrees(connectionMap[name := con], targets)
  {
    forall p | p in targets
      ensures p in connectionMap[name := con].Values
    {
      var n :| n in connectionMap && connectionMap[n] == p;
      assert connectionMap[name := con][n] == p;
    }
  }

  lemma NoLongerNamed(objects: map<ConId, ConnectionInstance>, connectionMap: map<Name, ConnectionInstance>,
                      logins: map<ConId, Login>, con: ConnectionInstance, login: Login)
    requires NamesAgree(objects, connectionMap, logins) && Known(objects, con)
    requires KeyedById(objects)
    requires logins[con.id].identified && !login.identified
    ensures logins[con.id].lower in connectionMap && connectionMap[logins[con.id].lower] == con
    ensures NamesAgree(objects, connectionMap - {logins[con.id].lower}, logins[con.id := login])
  {
  }

  lemma GoneFromNames(objects: map<ConId, ConnectionInstance>, connectionMap: map<Name, ConnectionInstance>,
                      logins: map<ConId, Login>, con: ConnectionInstance)
    requires NamesAgree(objects, connectionMap, logins) && KeyedById(objects)
    requires Known(objects, con) && !logins[con.id].identified
    ensures NamesAgree(objects - {con.id}, connectionMap, logins - {con.id})
  {
  }

  lemma GoneFromList(objects: map<ConId, ConnectionInstance>, list: seq<ConnectionInstance>,
                     logins: map<ConId, Login>, con: ConnectionInstance)
    requires ListAgrees(objects, list, logins) && KeyedById(objects) && Known(objects, con)
    ensures ListAgrees(objects - {con.id}, Without(list, con), logins - {con.id})
    ensures logins[con.id].identified ==> ListAgrees(objects - {con.id}, list, logins - {con.id})
  {
    WithoutMeans(list, con);
  }

  lemma GoneFromCounts(connectionMap: map<Name, ConnectionInstance>, counts: map<Addr, int>,
                       userCount: int, maxUserCount: int, logins: map<ConId, Login>, c: ConId)
    requires CountsAgree(connectionMap, counts, userCount, maxUserCount, logins)
    requires c in logins && !logins[c].identified
    ensures CountsAgree(connectionMap, counts, userCount, maxUserCount, logins - {c})
  {
    assert forall a :: LoggedInFrom(logins - {c}, a) == LoggedInFrom(logins, a);
  }

  lemma NowListed(objects: map<ConId, ConnectionInstance>, list: seq<ConnectionInstance>,
                  logins: map<ConId, Login>, con: ConnectionInstance, login: Login)
    requires ListAgrees(objects, list, logins) && Known(objects, con)
    requires logins[con.id].identified && !login.identified
    ensures ListAgrees(objects, list + [con], logins[con.id := login])
  {
    assert con !in list;
  }

  lemma NoLongerCounted(connectionMap: map<Name, ConnectionInstance>, counts: map<Addr, int>, fewer: map<Addr, int>,
                        userCount: int, maxUserCount: int, logins: map<ConId, Login>, rest: map<ConId, Login>, c: ConId)
    requires CountsAgree(connectionMap, counts, userCount, maxUserCount, logins)
    requires c in logins && logins[c].identified && logins[c].lower in connectionMap
    requires rest - {c} == logins - {c} && (c in rest ==> !rest[c].identified)
    requires CountedDown(counts, fewer, logins[c].addr)
    ensures CountsAgree(connectionMap - {logins[c].lower}, fewer, userCount - 1, maxUserCount, rest)
  {
    forall a
      ensures CountAt(fewer, a) == |LoggedInFrom(rest, a)|
    {
      OneLessAddress(logins, rest, c, a);
    }
  }

  lemma TargetsDrop(connectionMap: map<Name, ConnectionInstance>, name: Name, targets: set<ConnectionInstance>)
    requires StaffAgrees(connectionMap, targets) && name in connectionMap
    ensures StaffAgrees(connectionMap - {name}, targets - {connectionMap[name]})
  {
    forall p | p in targets && p != connectionMap[name]
      ensures p in (connectionMap - {name}).Values
    {
      var n :| n in connectionMap && connectionMap[n] == p;
      assert (connectionMap - {name})[n] == p;
    }
  }

  lemma GoneWithName(objects: map<ConId, ConnectionInstance>, connectionMap: map<Name, ConnectionInstance>,
                     logins: map<ConId, Login>, con: ConnectionInstance)
    requires NamesAgree(objects, connectionMap, logins) && KeyedById(objects)
    requires Known(objects, con) && logins[con.id].identified
    ensures logins[con.id].lower in connectionMap && connectionMap[logins[con.id].lower] == con
    ensures NamesAgree(objects - {con.id}, connectionMap - {logins[con.id].lower}, logins - {con.id})
  {
    var login := logins[con.id].(identified := false);
    NoLongerNamed(objects, connectionMap, logins, con, login);
    GoneFromNames(objects, connectionMap - {logins[con.id].lower}, logins[con.id := login], con);
    assert logins[con.id := login] - {con.id} == logins - {con.id};
  }

  lemma NewcomerIsNameless(objects: map<ConId, ConnectionInstance>, connectionMap: map<Name, ConnectionInstance>,
                           logins: map<ConId, Login>, con: ConnectionInstance, login: Login)
    requires NamesAgree(objects, connectionMap, logins) && con.id !in objects && !login.identified
    ensures NamesAgree(objects[con.id := con], connectionMap, logins[con.id := login])
  {
  }

  lemma NewcomerIsListed(objects: map<ConId, ConnectionInstance>, list: seq<ConnectionInstance>,
                         logins: map<ConId, Login>, con: ConnectionInstance, login: Login)
    requires ListAgrees(objects, list, logins) && con.id !in objects && !login.identified
    ensures ListAgrees(objects[con.id := con], list + [con], logins[con.id := login])
  {
    assert con !in list;
  }

  lemma NewcomerIsNotCounted(connectionMap: map<Name, ConnectionInstance>, counts: map<Addr, int>,
                             userCount: int, maxUserCount: int, logins: map<ConId, Login>, c: ConId, login: Login)
    requires CountsAgree(connectionMap, counts, userCount, maxUserCount, logins) && c !in logins && !login.identified
    ensures CountsAgree(connectionMap, counts, userCount, maxUserCount, logins[c := login])
  {
    assert forall a :: LoggedInFrom(logins[c := login], a) == LoggedInFrom(logins, a);
  }

  /** Channels go, and none comes. */
  ghost predicate Within(now: map<Name, Channel>, before: map<Name, Channel>) {
    forall r :: r in now ==> r in before && now[r] == before[r]
  }

  lemma WithinShrinks(before: map<Name, Channel>, after: map<Name, Channel>, all: map<Name, Channel>, r: Name)
    requires Within(before, all) && (after == before || after == before - {r})
    ensures Within(after, all) && after.Values <= all.Values
  {
  }

  /** Which channels a connection has still to leave: all but those in `done`. */
  ghost predicate ToLeave(channels: map<Name, Channel>, todo: set<Channel>, all: set<Channel>,
                          w: World, c: ConId, done: set<Name>)
  {
    && (forall ch :: ch in todo ==>
          && Lower(ch.name) in channels && channels[Lower(ch.name)] == ch
          && (c, Lower(ch.name)) in w.members && Lower(ch.name) !in done)
    && (forall ch :: ch in all ==> ch in todo || Lower(ch.name) in done)
    && (forall r :: r in RoomsOf(w, c) ==> exists ch :: ch in all && Lower(ch.name) == r)
    && done <= RoomsOf(w, c)
  }

  lemma LeavingOne(before: map<Name, Channel>, after: map<Name, Channel>, todo: set<Channel>, all: set<Channel>,
                   w: World, c: ConId, done: set<Name>, chan: Channel)
    requires ToLeave(before, todo, all, w, c, done) && chan in todo
    requires after == before || after == before - {Lower(chan.name)}
    ensures Lower(chan.name) in before && before[Lower(chan.name)] == chan
    ensures (c, Lower(chan.name)) in w.members && Lower(chan.name) !in done
    ensures ToLeave(after, todo - {chan}, all, w, c, done + {Lower(chan.name)})
  {
    hide Lower;
  }

  lemma LeftAll(channels: map<Name, Channel>, all: set<Channel>, w: World, c: ConId, done: set<Name>)
    requires ToLeave(channels, {}, all, w, c, done)
    ensures done == RoomsOf(w, c)
  {
    hide Lower;
  }

  lemma TargetsGrow(connectionMap: map<Name, ConnectionInstance>, targets: set<ConnectionInstance>, name: Name)
    requires StaffAgrees(connectionMap, targets) && name in connectionMap
    ensures StaffAgrees(connectionMap, targets + {connectionMap[name]})
  {
  }

  class ServerState {
    var now: int
    const cap: real
    var nextId: ConId
    var connectionMap: map<Name, ConnectionInstance>
    var connectionCountMap: map<Addr, int>
    var channelMap: map<Name, Channel>
    var unidentifiedList: seq<ConnectionInstance>
    var userCount: int
    var maxUserCount: int
    var staffCallTargets: set<ConnectionInstance>

    /** The connections the event loop watches: those that have not been torn down. */
    var objects: map<ConId, ConnectionInstance>

    // What the fields mean, part by part
    ghost var logins: map<ConId, Login>
    ghost var rooms: map<Name, Room>
    ghost var members: set<(ConId, Name)>
    ghost var exempt: set<(ConId, Name)>

    // What the server started from, and the events it has handled since
    ghost var origin: World
    ghost var trace: seq<Event>

    ghost function Meaning(): World
      reads this`now, this`nextId, this`logins, this`rooms, this`members, this`exempt
    {
      World(now, cap, nextId, logins, rooms, members, exempt)
    }

    ghost predicate Live(con: ConnectionInstance)
      reads this`objects
    {
      con.id in objects && objects[con.id] == con
    }

    ghost predicate Stored(chan: Channel)
      reads this`channelMap
    {
      Lower(chan.name) in channelMap && channelMap[Lower(chan.name)] == chan
    }

    ghost predicate KeysValid()
      reads this`objects, this`channelMap, this`nextId
    {
      KeysAgree(objects, channelMap, nextId)
    }

    ghost predicate NamesValid()
      reads this`objects, this`connectionMap, this`logins
    {
      NamesAgree(objects, connectionMap, logins)
    }

    ghost predicate ListValid()
      reads this`objects, this`unidentifiedList, this`logins
    {
      ListAgrees(objects, unidentifiedList, logins)
    }

    ghost predicate CountsValid()
      reads this`connectionMap, this`connectionCountMap, this`userCount, this`maxUserCount, this`logins
    {
      CountsAgree(connectionMap, connectionCountMap, userCount, maxUserCount, logins)
    }

    ghost predicate StaffValid()
      reads this`connectionMap, this`staffCallTargets
    {
      StaffAgrees(connectionMap, staffCallTargets)
    }

    /** Every channel counts its participants; both sides of every membership
        know of it. */
    ghost predicate ChannelsValid()
      reads this`objects, this`channelMap, objects.Values`channelList
      reads channelMap.Values`participants, channelMap.Values`participantCount, channelMap.Values`topUsers
    {
      && (forall r :: r in channelMap ==>
            channelMap[r].participantCount == |channelMap[r].participants| <= channelMap[r].topUsers)
      && (forall r, p :: r in channelMap && p in channelMap[r].participants ==>
            Live(p) && channelMap[r] in p.channelList)
      && (forall c, ch :: c in objects && ch in objects[c].channelList ==>
            Stored(ch) && objects[c] in ch.participants)
    }

    ghost predicate LoginsMean()
      reads this`objects, this`logins
      reads objects.Values`addr, objects.Values`upgraded, objects.Values`authStarted, objects.Values`pending
      reads objects.Values`identified, objects.Values`closed, objects.Values`delayClose
      reads objects.Values`characterName, objects.Values`characterNameLower
      reads objects.Values`roles, objects.Values`unlimited
    {
      logins.Keys == objects.Keys && forall c :: c in objects ==> logins[c] == objects[c].View()
    }

    ghost predicate RoomsMean()
      reads this`channelMap, this`rooms
      reads channelMap.Values`kind, channelMap.Values`canDestroy, channelMap.Values`topUsers
      reads channelMap.Values`owner, channelMap.Values`moderators, channelMap.Values`invites, channelMap.Values`bans
    {
      rooms.Keys == channelMap.Keys && forall r :: r in channelMap ==> rooms[r] == channelMap[r].View()
    }

    ghost predicate MembersMean()
      reads this`objects, this`channelMap, this`members, this`exempt, channelMap.Values`participants
    {
      && exempt <= members
      && forall c, r :: (c, r) in members <==>
           c in objects && r in channelMap && objects[c] in channelMap[r].participants
    }

    ghost predicate Valid()
      reads this, objects.Values, channelMap.Values
    {
      && KeysValid() && NamesValid() && ListValid() && CountsValid() && StaffValid() && ChannelsValid()
      && LoginsMean() && RoomsMean() && MembersMean()
    }

    /** The server has come to what a run of the specification comes to. */
    ghost predicate Reached()
      reads this`origin, this`trace, this`now, this`nextId, this`logins, this`rooms, this`members, this`exempt
    {
      Start(origin) && Meaning() == Run(origin, trace)
    }

    /** A server that has just started; channels read from disk are added one by one. */
    constructor (cap: real)
      ensures Valid() && Reached() && trace == [] && Meaning().cap == cap
    {
      this.cap := cap;
      now, nextId, userCount, maxUserCount := 0, 0, 0, 0;
      connectionMap, connectionCountMap, channelMap, unidentifiedList, staffCallTargets := map[], map[], map[], [], {};
      objects, logins, rooms, members, exempt := map[], map[], map[], {}, {};
      origin, trace := World(0, cap, 0, map[], map[], {}, {}), [];
      new;
      assert forall a :: LoggedInFrom(logins, a) == {};
    }

    // -----------------------------------------------------------------------
    // What agreement comes to

    /** A connection is in exactly one of the list of the nameless and the map of
        names, and in the map under its own name only. */
    lemma InExactlyOnePlace(con: ConnectionInstance, n: Name)
      requires Valid() && Live(con)
      ensures con.identified <==> con in connectionMap.Values
      ensures !con.identified <==> con in unidentifiedList
      ensures n in connectionMap && connectionMap[n] == con <==> con.identified && con.characterNameLower == n
    {
      if con.identified {
        assert connectionMap[con.characterNameLower] == con;
      }
    }

    /** Both sides of a membership know of it; counts are right; nobody closed or
        nameless is in a channel; a channel with members is the stored one. */
    lemma MembershipIsSymmetric(chan: Channel, con: ConnectionInstance)
      requires Valid() && Inv(Meaning()) && Live(con)
      ensures Stored(chan) && con in chan.participants <==> chan in con.channelList
      ensures Stored(chan) ==> chan.participantCount == |chan.participants| <= chan.topUsers
      ensures con.closed || !con.identified ==> con.channelList == {}
      ensures chan in con.channelList ==> Lower(chan.name) in channelMap && channelMap[Lower(chan.name)] == chan
    {
      hide Lower, Inv;
      if Stored(chan) && con in chan.participants {
        assert chan in con.channelList;
      }
      if chan in con.channelList {
        assert objects[con.id] in chan.participants;
      }
      Standing(con.id);
      ChannelsToLeave(con);
      if con.channelList != {} {
        var ch :| ch in con.channelList;
        assert Lower(ch.name) in RoomsOf(Meaning(), con.id);
      }
    }

    /** The counters are right, and none exceeds the cap by one. */
    lemma CountersAreRight(a: Addr)
      requires Valid() && Inv(Meaning())
      ensures userCount == |connectionMap| <= maxUserCount
      ensures var count := CountAt(connectionCountMap, a);
              && count == |OnAddress(Meaning(), a)| && (count == 0 || count as real < cap + 1.0)
    {
      var here := OnAddress(Meaning(), a);
      assert here != {} ==> |here| > 0;
    }

    // -----------------------------------------------------------------------
    // Channels

    lemma CountMembers(r: Name)
      requires KeysValid() && ChannelsValid() && MembersMean() && r in channelMap
      ensures MembersOf(Meaning(), r) == Ids(channelMap[r].participants)
      ensures |MembersOf(Meaning(), r)| == channelMap[r].participantCount
    {
      var participants := channelMap[r].participants;
      forall p | p in participants
        ensures (p.id, r) in members
      {
        assert Live(p);
      }
      assert forall p :: p in participants ==> Live(p);
      assert MembersOf(Meaning(), r) == Ids(participants);
      IdsSize(participants);
    }

    lemma MirrorsRoom(chan: Channel)
      requires RoomsMean() && Stored(chan)
      ensures Lower(chan.name) in rooms && rooms[Lower(chan.name)] == chan.View()
    {
    }

    // A new membership, layer by layer: the channel's fields, the agreement of
    // both sides, the meaning, and then everything.

    method Enlist(chan: Channel, con: ConnectionInstance)
      requires KeysValid() && RoomsMean() && Stored(chan)
      modifies this`rooms, chan`participants, chan`participantCount, chan`topUsers, con`channelList
      ensures RoomsMean()
      ensures chan.participants == old(chan.participants) + {con}
      ensures chan.participantCount == old(chan.participantCount) + 1
      ensures con.channelList == old(con.channelList) + {chan}
      ensures chan.topUsers >= chan.participantCount
      ensures rooms == if chan.participantCount > old(chan.topUsers)
                       then old(rooms)[Lower(chan.name) := old(rooms[Lower(chan.name)]).(top := chan.participantCount)]
                       else old(rooms)
    {
      hide Lower, KeysAgree, RoomsMean, OtherRoomsMean;
      OtherRooms(chan);
      chan.Join(con);
      Record(chan);
      assert chan.topUsers == old(chan.topUsers) ==> rooms == old(rooms);
    }

    method Link(chan: Channel, con: ConnectionInstance)
      requires KeysValid() && ChannelsValid() && RoomsMean() && Stored(chan) && Live(con) && con !in chan.participants
      modifies this`rooms, chan`participants, chan`participantCount, chan`topUsers, con`channelList
      ensures ChannelsValid() && RoomsMean()
      ensures chan.participants == old(chan.participants) + {con}
      ensures rooms == if chan.participantCount > old(rooms[Lower(chan.name)].top)
                       then old(rooms)[Lower(chan.name) := old(rooms[Lower(chan.name)]).(top := chan.participantCount)]
                       else old(rooms)
    {
      hide Lower, RoomsMean;
      MirrorsRoom(chan);
      Enlist(chan, con);
    }

    method Attach(chan: Channel, con: ConnectionInstance, ghost privileged: bool)
      requires KeysValid() && ChannelsValid() && RoomsMean() && MembersMean()
      requires Stored(chan) && Live(con) && con !in chan.participants
      modifies this`rooms, this`members, this`exempt
      modifies chan`participants, chan`participantCount, chan`topUsers, con`channelList
      ensures ChannelsValid() && RoomsMean() && MembersMean()
      ensures Lower(chan.name) in old(rooms)
      ensures Meaning() == EnterRoom(old(Meaning()), con.id, Lower(chan.name), privileged)
    {
      hide Lower, ChannelsValid, RoomsMean, Occupants;
      MirrorsRoom(chan);
      Link(chan, con);
      members := members + {(con.id, Lower(chan.name))};
      exempt := if privileged then exempt + {(con.id, Lower(chan.name))} else exempt;
      CountMembers(Lower(chan.name));
    }

    /** Adds a connection to a channel it is not in. */
    method JoinChannel(chan: Channel, con: ConnectionInstance, ghost privileged: bool)
      requires Valid() && Stored(chan) && Live(con) && con !in chan.participants
      modifies this`rooms, this`members, this`exempt
      modifies chan`participants, chan`participantCount, chan`topUsers, con`channelList
      ensures Valid()
      ensures Lower(chan.name) in old(rooms)
      ensures Meaning() == EnterRoom(old(Meaning()), con.id, Lower(chan.name), privileged)
    {
      hide NamesValid, ListValid, CountsValid, StaffValid, ChannelsValid, LoginsMean, RoomsMean, MembersMean;
      hide Lower, EnterRoom;
      Attach(chan, con, privileged);
    }

    // A membership that ends, in the same layers.

    method Unlink(chan: Channel, con: ConnectionInstance)
      requires KeysValid() && ChannelsValid() && Stored(chan) && Live(con) && con in chan.participants
      modifies chan`participants, chan`participantCount, con`channelList
      ensures ChannelsValid()
      ensures chan.participants == old(chan.participants) - {con}
      ensures con.channelList == old(con.channelList) - {chan}
    {
      hide Lower;
      chan.Part(con);
    }

    method Detach(chan: Channel, con: ConnectionInstance)
      requires KeysValid() && ChannelsValid() && MembersMean() && Stored(chan) && Live(con) && con in chan.participants
      modifies this`members, this`exempt, chan`participants, chan`participantCount, con`channelList
      ensures ChannelsValid() && MembersMean()
      ensures chan.participants == old(chan.participants) - {con}
      ensures con.channelList == old(con.channelList) - {chan}
      ensures Meaning() == Depart(old(Meaning()), con.id, Lower(chan.name))
    {
      hide Lower, ChannelsValid;
      Unlink(chan, con);
      members := members - {(con.id, Lower(chan.name))};
      exempt := exempt - {(con.id, Lower(chan.name))};
    }

    /** Removes a participant, and nothing else. */
    method Part(chan: Channel, con: ConnectionInstance)
      requires Valid() && Stored(chan) && Live(con) && con in chan.participants
      modifies this`members, this`exempt, chan`participants, chan`participantCount, con`channelList
      ensures Valid()
      ensures chan.participants == old(chan.participants) - {con}
      ensures con.channelList == old(con.channelList) - {chan}
      ensures Meaning() == Depart(old(Meaning()), con.id, Lower(chan.name))
    {
      hide NamesValid, ListValid, CountsValid, StaffValid, ChannelsValid, LoginsMean, RoomsMean, MembersMean;
      hide Lower, Depart;
      Detach(chan, con);
    }

    lemma NobodyLeft(r: Name)
      requires Valid() && (r in channelMap ==> channelMap[r].participants == {})
      ensures MembersOf(Meaning(), r) == {}
      ensures DestroyRoom(Meaning(), r) == Meaning().(rooms := rooms - {r})
    {
      if r in channelMap {
        CountMembers(r);
      } else {
        assert forall m :: m in members ==> m.1 in channelMap;
      }
      DestroyEmptyRoom(Meaning(), r);
    }

    lemma NobodyLists(r: Name)
      requires ChannelsValid() && (r in channelMap ==> channelMap[r].participants == {})
      ensures forall c, ch :: c in objects && ch in objects[c].channelList ==> Stored(ch) && Lower(ch.name) != r
    {
      forall c, ch | c in objects && ch in objects[c].channelList
        ensures Stored(ch) && Lower(ch.name) != r
      {
        assert objects[c] in ch.participants;
      }
    }

    method Unlist(r: Name)
      requires KeysValid() && ChannelsValid() && (r in channelMap ==> channelMap[r].participants == {})
      modifies this`channelMap
      ensures KeysValid() && ChannelsValid() && channelMap == old(channelMap) - {r}
    {
      hide Lower;
      NobodyLists(r);
      if r in channelMap {
        // The channel's destructor asserts as much.
        assert channelMap[r].participantCount == 0;
      }
      channelMap := channelMap - {r};
    }

    method Forget(r: Name)
      requires KeysValid() && ChannelsValid() && RoomsMean() && MembersMean()
      requires r in channelMap ==> channelMap[r].participants == {}
      modifies this`channelMap, this`rooms
      ensures KeysValid() && ChannelsValid() && RoomsMean() && MembersMean()
      ensures channelMap == old(channelMap) - {r} && rooms == old(rooms) - {r}
    {
      hide Lower, Channel.View, ChannelsValid, KeysValid;
      Unlist(r);
      rooms := rooms - {r};
    }

    /** Drops the last reference to an empty channel. */
    method RemoveChannel(r: Name)
      requires Valid() && (r in channelMap ==> channelMap[r].participants == {})
      modifies this`channelMap, this`rooms
      ensures Valid()
      ensures channelMap == old(channelMap) - {r}
      ensures Meaning() == DestroyRoom(old(Meaning()), r)
    {
      hide KeysValid, NamesValid, ListValid, CountsValid, StaffValid, ChannelsValid, LoginsMean, RoomsMean, MembersMean;
      hide Lower, DestroyRoom;
      NobodyLeft(r);
      Forget(r);
    }

    /** Empties a channel and removes it. */
    method DestroyChannel(r: Name)
      requires Valid()
      modifies this`channelMap, this`rooms, this`members, this`exempt
      modifies objects.Values`channelList, channelMap.Values`participants, channelMap.Values`participantCount
      ensures Valid()
      ensures channelMap == old(channelMap) - {r}
      ensures Meaning() == DestroyRoom(old(Meaning()), r)
    {
      hide Valid, Lower, DestroyRoom, Depart;
      if r in channelMap {
        var chan := channelMap[r];
        IsStored(r);
        while chan.participants != {}
          invariant Valid() && channelMap == old(channelMap) && Stored(chan)
          invariant DestroyRoom(Meaning(), r) == DestroyRoom(old(Meaning()), r)
          decreases chan.participants
        {
          var p :| p in chan.participants;
          ParticipantIsLive(chan, p);
          DestroyAfterDepart(Meaning(), p.id, r);
          Part(chan, p);
        }
      }
      RemoveChannel(r);
    }

    lemma IsStored(r: Name)
      requires Valid() && r in channelMap
      ensures Lower(channelMap[r].name) == r && Stored(channelMap[r])
    {
    }

    lemma ParticipantIsLive(chan: Channel, p: ConnectionInstance)
      requires Valid() && Stored(chan) && p in chan.participants
      ensures Live(p) && p in objects.Values
    {
    }

    lemma VanishesWithLast(chan: Channel)
      requires Valid() && Stored(chan)
      ensures chan.participantCount <= 0 <==> MembersOf(Meaning(), Lower(chan.name)) == {}
      ensures chan.participantCount <= 0 <==> chan.participants == {}
      ensures Lower(chan.name) in rooms && rooms[Lower(chan.name)] == chan.View()
    {
      CountMembers(Lower(chan.name));
    }

    /** Parts a connection from a channel; the last one out of a temporary
        channel destroys it. */
    method PartChannel(chan: Channel, con: ConnectionInstance)
      requires Valid() && Stored(chan) && Live(con) && con in chan.participants
      modifies this`channelMap, this`rooms, this`members, this`exempt
      modifies objects.Values`channelList, channelMap.Values`participants, channelMap.Values`participantCount
      ensures Valid()
      ensures channelMap == old(channelMap) || channelMap == old(channelMap) - {Lower(chan.name)}
      ensures Lower(chan.name) in old(rooms)
      ensures Meaning() == LeaveRoom(old(Meaning()), con.id, Lower(chan.name))
    {
      hide Valid, Lower, DestroyRoom, Depart, Occupants;
      StoredIsLive(chan, con);
      Part(chan, con);
      VanishesWithLast(chan);
      if chan.kind == Private && chan.canDestroy && chan.participantCount <= 0 {
        NobodyLeft(Lower(chan.name));
        DestroyChannel(Lower(chan.name));
      } else if chan.kind == PubPrivate && chan.participantCount <= 0 && chan.topUsers < 5 {
        NobodyLeft(Lower(chan.name));
        DestroyChannel(Lower(chan.name));
      }
    }

    lemma StoredIsLive(chan: Channel, con: ConnectionInstance)
      requires Valid() && Stored(chan) && Live(con)
      ensures Lower(chan.name) in rooms && rooms[Lower(chan.name)] == chan.View()
      ensures chan in channelMap.Values && con in objects.Values
    {
    }

    // -----------------------------------------------------------------------
    // A channel's own fields

    /** Every other channel is what it means. */
    ghost predicate OtherRoomsMean(r: Name)
      reads this`channelMap, this`rooms
      reads (channelMap - {r}).Values`kind, (channelMap - {r}).Values`canDestroy, (channelMap - {r}).Values`topUsers
      reads (channelMap - {r}).Values`owner, (channelMap - {r}).Values`moderators
      reads (channelMap - {r}).Values`invites, (channelMap - {r}).Values`bans
    {
      rooms.Keys == channelMap.Keys && forall q :: q in channelMap - {r} ==> rooms[q] == channelMap[q].View()
    }

    lemma OtherRooms(chan: Channel)
      requires KeysValid() && RoomsMean() && Stored(chan)
      ensures OtherRoomsMean(Lower(chan.name)) && chan !in (channelMap - {Lower(chan.name)}).Values
      ensures Lower(chan.name) in rooms && rooms[Lower(chan.name)] == chan.View()
    {
    }

    ghost method Record(chan: Channel)
      requires Stored(chan) && OtherRoomsMean(Lower(chan.name))
      modifies this`rooms
      ensures RoomsMean()
      ensures rooms == old(rooms)[Lower(chan.name) := chan.View()]
    {
      hide Lower, Channel.View;
      rooms := rooms[Lower(chan.name) := chan.View()];
    }

    method SetInvites(chan: Channel, invites: set<Name>)
      requires Valid() && Stored(chan)
      modifies this`rooms, chan`invites
      ensures Valid() && Lower(chan.name) in old(rooms)
      ensures Meaning() == SetRoom(old(Meaning()), Lower(chan.name),
                old(rooms[Lower(chan.name)]).(invites := invites))
    {
      hide KeysValid, NamesValid, ListValid, CountsValid, StaffValid, ChannelsValid, LoginsMean, RoomsMean, MembersMean;
      hide Lower, OtherRoomsMean;
      OtherRooms(chan);
      chan.invites := invites;
      Record(chan);
    }

    method SetBans(chan: Channel, bans: map<Name, BanRecord>)
      requires Valid() && Stored(chan)
      modifies this`rooms, chan`bans
      ensures Valid() && Lower(chan.name) in old(rooms)
      ensures Meaning() == SetRoom(old(Meaning()), Lower(chan.name),
                old(rooms[Lower(chan.name)]).(bans := bans))
    {
      hide KeysValid, NamesValid, ListValid, CountsValid, StaffValid, ChannelsValid, LoginsMean, RoomsMean, MembersMean;
      hide Lower, OtherRoomsMean;
      OtherRooms(chan);
      chan.bans := bans;
      Record(chan);
    }

    method SetKind(chan: Channel, kind: RoomKind)
      requires Valid() && Stored(chan)
      modifies this`rooms, chan`kind
      ensures Valid() && Lower(chan.name) in old(rooms)
      ensures Meaning() == SetRoom(old(Meaning()), Lower(chan.name),
                old(rooms[Lower(chan.name)]).(kind := kind))
    {
      hide KeysValid, NamesValid, ListValid, CountsValid, StaffValid, ChannelsValid, LoginsMean, RoomsMean, MembersMean;
      hide Lower, OtherRoomsMean;
      OtherRooms(chan);
      chan.kind := kind;
      Record(chan);
    }

    method SetOwner(chan: Channel, owner: Name)
      requires Valid() && Stored(chan)
      modifies this`rooms, chan`owner
      ensures Valid() && Lower(chan.name) in old(rooms)
      ensures Meaning() == SetRoom(old(Meaning()), Lower(chan.name),
                old(rooms[Lower(chan.name)]).(owner := owner))
    {
      hide KeysValid, NamesValid, ListValid, CountsValid, StaffValid, ChannelsValid, LoginsMean, RoomsMean, MembersMean;
      hide Lower, OtherRoomsMean;
      OtherRooms(chan);
      chan.owner := owner;
      Record(chan);
    }

    method SetModerators(chan: Channel, moderators: set<Name>)
      requires Valid() && Stored(chan)
      modifies this`rooms, chan`moderators
      ensures Valid() && Lower(chan.name) in old(rooms)
      ensures Meaning() == SetRoom(old(Meaning()), Lower(chan.name),
                old(rooms[Lower(chan.name)]).(moderators := moderators))
    {
      hide KeysValid, NamesValid, ListValid, CountsValid, StaffValid, ChannelsValid, LoginsMean, RoomsMean, MembersMean;
      hide Lower, OtherRoomsMean;
      OtherRooms(chan);
      chan.moderators := moderators;
      Record(chan);
    }

    // -----------------------------------------------------------------------
    // A connection's own fields

    /** Everybody else's login is what it means. */
    ghost predicate OthersMean(c: ConId)
      reads this`objects, this`logins
      reads (objects - {c}).Values`addr, (objects - {c}).Values`upgraded, (objects - {c}).Values`authStarted
      reads (objects - {c}).Values`pending, (objects - {c}).Values`identified, (objects - {c}).Values`closed
      reads (objects - {c}).Values`delayClose, (objects - {c}).Values`characterName
      reads (objects - {c}).Values`characterNameLower, (objects - {c}).Values`roles, (objects - {c}).Values`unlimited
    {
      logins.Keys == objects.Keys && forall d :: d in objects - {c} ==> logins[d] == objects[d].View()
    }

    lemma Others(con: ConnectionInstance)
      requires KeysValid() && LoginsMean() && Live(con)
      ensures OthersMean(con.id) && con !in (objects - {con.id}).Values
      ensures con.id in logins && logins[con.id] == con.View()
    {
    }

    ghost method Note(con: ConnectionInstance)
      requires Live(con) && OthersMean(con.id) && NamesValid() && ListValid() && CountsValid()
      requires con.View().identified == logins[con.id].identified && con.View().lower == logins[con.id].lower
      requires con.View().identified ==> con.View().addr == logins[con.id].addr
      modifies this`logins
      ensures LoginsMean() && NamesValid() && ListValid() && CountsValid()
      ensures logins == old(logins)[con.id := con.View()]
    {
      hide ConnectionInstance.View, LoggedInFrom, NamesAgree, ListAgrees, LoginsMean, OthersMean;
      OthersCover(con.id);
      SameAddresses(logins, con.id, con.View());
      StillNamed(objects, connectionMap, logins, con.id, con.View());
      StillListed(objects, unidentifiedList, logins, con.id, con.View());
      Rename(con);
    }

    lemma OthersCover(c: ConId)
      requires OthersMean(c)
      ensures logins.Keys == objects.Keys
    {
    }

    ghost method Rename(con: ConnectionInstance)
      requires Live(con) && OthersMean(con.id)
      modifies this`logins
      ensures LoginsMean() && logins == old(logins)[con.id := con.View()]
    {
      hide ConnectionInstance.View;
      logins := logins[con.id := con.View()];
    }

    method SetDelayClose(con: ConnectionInstance)
      requires Valid() && Live(con)
      modifies this`logins, con`delayClose
      ensures Valid() && con.id in old(logins)
      ensures Meaning() == SetLogin(old(Meaning()), con.id, old(logins[con.id]).(delayClose := true))
    {
      hide KeysValid, NamesValid, ListValid, CountsValid, StaffValid, ChannelsValid, LoginsMean, RoomsMean, MembersMean;
      hide OthersMean;
      Others(con);
      con.delayClose := true;
      Note(con);
    }

    method MarkClosed(con: ConnectionInstance)
      requires Valid() && Live(con)
      modifies this`logins, con`closed
      ensures Valid() && con.id in old(logins)
      ensures Meaning() == SetLogin(old(Meaning()), con.id, old(logins[con.id]).(closed := true))
    {
      hide KeysValid, NamesValid, ListValid, CountsValid, StaffValid, ChannelsValid, LoginsMean, RoomsMean, MembersMean;
      hide OthersMean;
      Others(con);
      con.closed := true;
      Note(con);
    }

    method Upgrade(con: ConnectionInstance, addr: Addr)
      requires Valid() && Live(con) && !con.identified
      modifies this`logins, con`upgraded, con`addr
      ensures Valid() && con.id in old(logins)
      ensures Meaning() == SetLogin(old(Meaning()), con.id, old(logins[con.id]).(upgraded := true, addr := addr))
    {
      hide KeysValid, NamesValid, ListValid, CountsValid, StaffValid, ChannelsValid, LoginsMean, RoomsMean, MembersMean;
      hide OthersMean;
      Others(con);
      con.upgraded, con.addr := true, addr;
      Note(con);
    }

    method StartAuth(con: ConnectionInstance)
      requires Valid() && Live(con)
      modifies this`logins, con`authStarted
      ensures Valid() && con.id in old(logins)
      ensures Meaning() == SetLogin(old(Meaning()), con.id, old(logins[con.id]).(authStarted := true))
    {
      hide KeysValid, NamesValid, ListValid, CountsValid, StaffValid, ChannelsValid, LoginsMean, RoomsMean, MembersMean;
      hide OthersMean;
      Others(con);
      con.authStarted := true;
      Note(con);
    }

    method SetRoles(con: ConnectionInstance, roles: set<Role>)
      requires Valid() && Live(con)
      modifies this`logins, con`roles
      ensures Valid() && con.id in old(logins)
      ensures Meaning() == SetLogin(old(Meaning()), con.id, old(logins[con.id]).(roles := roles))
    {
      hide KeysValid, NamesValid, ListValid, CountsValid, StaffValid, ChannelsValid, LoginsMean, RoomsMean, MembersMean;
      hide OthersMean;
      Others(con);
      con.roles := roles;
      Note(con);
    }

    method SetUnlimited(con: ConnectionInstance, unlimited: bool)
      requires Valid() && Live(con)
      modifies this`logins, con`unlimited
      ensures Valid() && con.id in old(logins)
      ensures Meaning() == SetLogin(old(Meaning()), con.id, old(logins[con.id]).(unlimited := unlimited))
    {
      hide KeysValid, NamesValid, ListValid, CountsValid, StaffValid, ChannelsValid, LoginsMean, RoomsMean, MembersMean;
      hide OthersMean;
      Others(con);
      con.unlimited := unlimited;
      Note(con);
    }

    method Await(con: ConnectionInstance, pending: bool)
      requires Valid() && Live(con)
      modifies this`logins, con`pending
      ensures Valid() && con.id in old(logins)
      ensures Meaning() == SetLogin(old(Meaning()), con.id, old(logins[con.id]).(pending := pending))
    {
      hide KeysValid, NamesValid, ListValid, CountsValid, StaffValid, ChannelsValid, LoginsMean, RoomsMean, MembersMean;
      hide OthersMean;
      Others(con);
      con.pending := pending;
      Note(con);
    }

    // -----------------------------------------------------------------------
    // Before a close

    lemma ChannelsToLeave(con: ConnectionInstance)
      requires Valid() && Live(con)
      ensures forall ch :: ch in con.channelList ==> Stored(ch) && (con.id, Lower(ch.name)) in members
      ensures forall r :: r in RoomsOf(Meaning(), con.id) ==>
                exists ch :: ch in con.channelList && Lower(ch.name) == r
    {
      forall ch | ch in con.channelList
        ensures Stored(ch) && (con.id, Lower(ch.name)) in members
      {
        assert objects[con.id] in ch.participants;
      }
      forall r | r in RoomsOf(Meaning(), con.id)
        ensures exists ch :: ch in con.channelList && Lower(ch.name) == r
      {
        assert channelMap[r] in con.channelList;
      }
    }

    lemma MemberIsIn(chan: Channel, con: ConnectionInstance)
      requires Valid() && Stored(chan) && Live(con)
      ensures (con.id, Lower(chan.name)) in members <==> con in chan.participants
    {
    }

    lemma ExemptAreMembers()
      requires Valid()
      ensures exempt <= members
    {
    }

    method LeaveOne(chan: Channel, con: ConnectionInstance, ghost w: World, ghost done: set<Name>)
      requires Valid() && Live(con) && Meaning() == LeaveSome(w, con.id, done) && Stored(chan)
      requires (con.id, Lower(chan.name)) in w.members && Lower(chan.name) !in done && w.exempt <= w.members
      modifies this`channelMap, this`rooms, this`members, this`exempt
      modifies objects.Values`channelList, channelMap.Values`participants, channelMap.Values`participantCount
      ensures Valid() && Lower(chan.name) in RoomsOf(w, con.id)
      ensures channelMap == old(channelMap) || channelMap == old(channelMap) - {Lower(chan.name)}
      ensures Meaning() == LeaveSome(w, con.id, done + {Lower(chan.name)})
    {
      hide Valid, Lower, LeaveRoom, LeaveSome, Places;
      LeaveStep(w, con.id, done, chan, con);
      PartChannel(chan, con);
    }

    method LeaveChannels(con: ConnectionInstance)
      requires Valid() && Live(con)
      modifies this`channelMap, this`rooms, this`members, this`exempt
      modifies objects.Values`channelList, channelMap.Values`participants, channelMap.Values`participantCount
      ensures Valid()
      ensures Within(channelMap, old(channelMap))
      ensures Meaning() == LeaveSome(old(Meaning()), con.id, RoomsOf(old(Meaning()), con.id))
    {
      hide Valid, Lower, LeaveSome, Places, ToLeave, Within;
      ghost var w, c := Meaning(), con.id;
      ghost var done: set<Name> := {};
      var todo := con.channelList;
      ghost var all := todo;
      LeaveNone(w, c);
      StartLeaving(con);
      while todo != {}
        invariant Valid() && Live(con) && Meaning() == LeaveSome(w, c, done) && w.exempt <= w.members
        invariant Within(channelMap, old(channelMap)) && channelMap.Values <= old(channelMap.Values)
        invariant ToLeave(channelMap, todo, all, w, c, done)
        decreases todo
      {
        var chan :| chan in todo;
        LeavingOne(channelMap, channelMap, todo, all, w, c, done, chan);
        ghost var before := channelMap;
        LeaveOne(chan, con, w, done);
        LeavingOne(before, channelMap, todo, all, w, c, done, chan);
        WithinShrinks(before, channelMap, old(channelMap), Lower(chan.name));
        todo := todo - {chan};
        done := done + {Lower(chan.name)};
      }
      LeftAll(channelMap, all, w, c, done);
    }

    lemma StartLeaving(con: ConnectionInstance)
      requires Valid() && Live(con)
      ensures exempt <= members && Within(channelMap, channelMap)
      ensures ToLeave(channelMap, con.channelList, con.channelList, Meaning(), con.id, {})
    {
      ChannelsToLeave(con);
      ExemptAreMembers();
    }

    lemma LeaveStep(w: World, c: ConId, done: set<Name>, chan: Channel, con: ConnectionInstance)
      requires Valid() && Live(con) && con.id == c && Meaning() == LeaveSome(w, c, done) && Stored(chan)
      requires (c, Lower(chan.name)) in w.members && Lower(chan.name) !in done && w.exempt <= w.members
      ensures con in chan.participants && chan in channelMap.Values && con in objects.Values
      ensures Lower(chan.name) in RoomsOf(w, c) && Lower(chan.name) in rooms
      ensures LeaveRoom(Meaning(), c, Lower(chan.name)) == LeaveSome(w, c, done + {Lower(chan.name)})
    {
      hide Valid, Lower, LeaveRoom, LeaveSome, Channel.View;
      MemberIsIn(chan, con);
      StoredIsLive(chan, con);
      LeftSoFar(w, c, done);
      LeaveOneMore(w, c, done, Lower(chan.name));
    }

    lemma LoginOf(con: ConnectionInstance)
      requires Valid() && Live(con)
      ensures con.id in logins && logins[con.id] == con.View() && con in objects.Values
    {
    }

    /** Leaves every channel and forgets the staff-room invitation. */
    method PreDisconnect(con: ConnectionInstance)
      requires Valid() && Live(con)
      modifies this`channelMap, this`rooms, this`members, this`exempt, objects.Values`channelList
      modifies channelMap.Values`participants, channelMap.Values`participantCount, channelMap.Values`invites
      ensures Valid() && con.id in old(logins)
      ensures Within(channelMap, old(channelMap))
      ensures Meaning() == Disconnect(old(Meaning()), con.id)
    {
      hide Valid, Lower, LeaveSome, Disconnect, Places;
      LoginOf(con);
      ExemptAreMembers();
      LeaveAll(Meaning(), con.id);
      LeaveChannels(con);
      if STAFF_ROOM in channelMap {
        var chan := channelMap[STAFF_ROOM];
        IsStored(STAFF_ROOM);
        StoredIsLive(chan, con);
        SetInvites(chan, chan.invites - {Lower(con.characterName)});
      } else {
        RoomKeys();
      }
    }

    lemma RoomKeys()
      requires Valid()
      ensures rooms.Keys == channelMap.Keys && logins.Keys == objects.Keys
    {
    }

    /** The first stage of a close. */
    method PrepareShutdown(con: ConnectionInstance)
      requires Valid() && Live(con)
      modifies this`channelMap, this`rooms, this`members, this`exempt, this`logins, objects.Values`channelList
      modifies channelMap.Values`participants, channelMap.Values`participantCount, channelMap.Values`invites, con`closed
      ensures Valid() && con.id in old(logins)
      ensures Meaning() == Shutdown(old(Meaning()), con.id)
    {
      hide Valid, Disconnect;
      LoginOf(con);
      if con.closed {
        return;
      }
      if con.identified {
        PreDisconnect(con);
      }
      MarkClosed(con);
    }

    // -----------------------------------------------------------------------
    // Names

    method AddConnection(name: Name, con: ConnectionInstance)
      modifies this`connectionCountMap, this`connectionMap, this`userCount, this`maxUserCount
      ensures connectionMap == old(connectionMap)[name := con]
      ensures userCount == old(userCount) + 1
      ensures maxUserCount == if userCount > old(maxUserCount) then userCount else old(maxUserCount)
      ensures CountedUp(old(connectionCountMap), connectionCountMap, con.addr)
    {
      connectionCountMap := connectionCountMap[con.addr := CountAt(connectionCountMap, con.addr) + 1];
      connectionMap := connectionMap[name := con];
      userCount := userCount + 1;
      if userCount > maxUserCount {
        maxUserCount := userCount;
      }
    }

    /** Forgets a name; a counter that comes down to nothing goes. */
    method RemoveConnection(name: Name)
      modifies this`connectionCountMap, this`connectionMap, this`userCount, this`staffCallTargets
      ensures connectionMap == old(connectionMap) - {name}
      ensures name !in old(connectionMap) ==>
                && userCount == old(userCount) && staffCallTargets == old(staffCallTargets)
                && connectionCountMap == old(connectionCountMap)
      ensures name in old(connectionMap) ==>
                && userCount == old(userCount) - 1
                && staffCallTargets == old(staffCallTargets) - {old(connectionMap[name])}
                && CountedDown(old(connectionCountMap), connectionCountMap, old(connectionMap[name].addr))
    {
      if name in connectionMap {
        var addr := connectionMap[name].addr;
        connectionCountMap := connectionCountMap[addr := CountAt(connectionCountMap, addr) - 1];
        if connectionCountMap[addr] <= 0 {
          connectionCountMap := connectionCountMap - {addr};
        }
        staffCallTargets := staffCallTargets - {connectionMap[name]};
        connectionMap := connectionMap - {name};
        userCount := userCount - 1;
      }
    }

    lemma OnlyKey(con: ConnectionInstance)
      requires KeysValid() && LoginsMean() && Live(con)
      ensures KeyedById(objects)
      ensures con.id in logins && logins[con.id] == con.View()
      ensures logins[con.id].identified == con.identified && logins[con.id].lower == con.characterNameLower
      ensures logins[con.id].addr == con.addr
    {
    }

    method Christen(con: ConnectionInstance, name: Name, lower: Name)
      requires KeysValid() && LoginsMean() && Live(con)
      modifies this`logins, con`identified, con`characterName, con`characterNameLower
      ensures LoginsMean() && con.id in old(logins)
      ensures logins == old(logins)[con.id :=
                          old(logins[con.id]).(identified := true, name := name, lower := lower)]
    {
      hide KeysValid, LoginsMean, OthersMean;
      Others(con);
      con.identified, con.characterName, con.characterNameLower := true, name, lower;
      Rename(con);
    }

    method Enter(con: ConnectionInstance, name: Name, lower: Name)
      requires KeysValid() && NamesValid() && ListValid() && CountsValid() && StaffValid() && LoginsMean()
      requires Live(con) && lower !in connectionMap && !con.identified
      modifies this`connectionCountMap, this`connectionMap, this`userCount, this`maxUserCount
      modifies this`unidentifiedList, this`logins, con`identified, con`characterName, con`characterNameLower
      ensures NamesValid() && ListValid() && CountsValid() && StaffValid() && LoginsMean()
      ensures con.id in old(logins)
      ensures logins == old(logins)[con.id :=
                          old(logins[con.id]).(identified := true, name := name, lower := lower)]
    {
      hide KeysAgree, KeyedById, NamesAgree, ListAgrees, CountsAgree, StaffAgrees, LoginsMean, CountedUp, Lower, Without, ConnectionInstance.View;
      OnlyKey(con);
      ghost var login := logins[con.id].(identified := true, name := name, lower := lower);
      ghost var counts := connectionCountMap;
      NewlyNamed(objects, connectionMap, logins, con, login);
      NewlyUnlisted(objects, unidentifiedList, logins, con, login);
      TargetsStay(connectionMap, lower, con, staffCallTargets);
      Christen(con, name, lower);
      AddConnection(lower, con);
      NewlyCounted(old(connectionMap), counts, connectionCountMap, old(userCount), old(maxUserCount), old(logins), con, login);
      unidentifiedList := Without(unidentifiedList, con);
    }

    /** Gives a connection its name; a name can be given only once. */
    method SetIdent(con: ConnectionInstance, name: Name, lower: Name) returns (ok: bool)
      requires Valid() && Live(con) && lower == Lower(name)
      requires lower !in connectionMap
      modifies this`connectionCountMap, this`connectionMap, this`userCount, this`maxUserCount
      modifies this`unidentifiedList, this`logins, con`identified, con`characterName, con`characterNameLower
      ensures Valid() && con.id in old(logins)
      ensures ok == !old(con.identified)
      ensures Meaning() == if ok then Identify(old(Meaning()), con.id, name) else old(Meaning())
    {
      hide KeysValid, NamesValid, ListValid, CountsValid, StaffValid, ChannelsValid, LoginsMean, RoomsMean, MembersMean;
      hide Lower;
      OnlyKey(con);
      if con.identified {
        return false;
      }
      Enter(con, name, lower);
      ok := true;
    }

    method Forsake(con: ConnectionInstance)
      requires KeysValid() && LoginsMean() && Live(con)
      modifies this`logins, con`delayClose, con`identified
      ensures LoginsMean() && con.id in old(logins)
      ensures logins == old(logins)[con.id := old(logins[con.id]).(delayClose := true, identified := false)]
    {
      hide KeysValid, LoginsMean, OthersMean;
      Others(con);
      con.delayClose, con.identified := true, false;
      Rename(con);
    }

    /** From the name map to the list of the nameless; `was` and `now` are what
        the logins mean before and after. */
    method MoveToUnidentified(con: ConnectionInstance, ghost was: map<ConId, Login>, ghost login: Login)
      requires KeyedById(objects) && Live(con) && NamesAgree(objects, connectionMap, was)
      requires ListAgrees(objects, unidentifiedList, was) && StaffValid()
      requires CountsAgree(connectionMap, connectionCountMap, userCount, maxUserCount, was)
      requires con.id in was && was[con.id].identified && was[con.id].lower == con.characterNameLower
      requires was[con.id].addr == con.addr && !login.identified
      modifies this`connectionCountMap, this`connectionMap, this`userCount, this`staffCallTargets, this`unidentifiedList
      ensures connectionMap == old(connectionMap) - {con.characterNameLower}
      ensures NamesAgree(objects, connectionMap, was[con.id := login])
      ensures ListAgrees(objects, unidentifiedList, was[con.id := login]) && StaffValid()
      ensures CountsAgree(connectionMap, connectionCountMap, userCount, maxUserCount, was[con.id := login])
    {
      hide KeyedById, NamesAgree, ListAgrees, CountsAgree, StaffAgrees, CountedDown;
      NoLongerNamed(objects, connectionMap, was, con, login);
      NowListed(objects, unidentifiedList, was, con, login);
      TargetsDrop(connectionMap, con.characterNameLower, staffCallTargets);
      unidentifiedList := unidentifiedList + [con];
      RemoveConnection(con.characterNameLower);
      assert was[con.id := login] - {con.id} == was - {con.id};
      NoLongerCounted(old(connectionMap), old(connectionCountMap), connectionCountMap, old(userCount), maxUserCount,
                      was, was[con.id := login], con.id);
    }

    method Unlog(con: ConnectionInstance)
      requires KeysValid() && NamesValid() && ListValid() && CountsValid() && StaffValid() && LoginsMean()
      requires Live(con) && con.identified
      modifies this`connectionCountMap, this`connectionMap, this`userCount, this`staffCallTargets
      modifies this`unidentifiedList, this`logins, con`delayClose, con`identified
      ensures connectionMap == old(connectionMap) - {con.characterNameLower}
      ensures NamesValid() && ListValid() && CountsValid() && StaffValid() && LoginsMean()
      ensures con.id in old(logins)
      ensures logins == old(logins)[con.id := old(logins[con.id]).(delayClose := true, identified := false)]
    {
      hide KeysAgree, KeyedById, NamesAgree, ListAgrees, CountsAgree, StaffAgrees, LoginsMean, ConnectionInstance.View;
      OnlyKey(con);
      ghost var was := logins;
      Forsake(con);
      MoveToUnidentified(con, was, was[con.id].(delayClose := true, identified := false));
    }

    /** Closes a connection and frees its name for another. */
    method Closef(con: ConnectionInstance)
      requires Valid() && Live(con) && con.identified
      modifies this`connectionCountMap, this`connectionMap, this`userCount, this`staffCallTargets
      modifies this`unidentifiedList, this`logins, con`delayClose, con`identified
      ensures connectionMap == old(connectionMap) - {con.characterNameLower}
      ensures Valid() && con.id in old(logins)
      ensures Meaning() == Unname(old(Meaning()), con.id)
    {
      hide KeysValid, NamesValid, ListValid, CountsValid, StaffValid, ChannelsValid, LoginsMean, RoomsMean, MembersMean;
      Unlog(con);
    }

    // -----------------------------------------------------------------------
    // The first and the last of a connection

    // The table of watched connections changes, and the memberships agree with it.

    method Unwatch(con: ConnectionInstance)
      requires KeysValid() && ChannelsValid() && Live(con)
      requires forall r :: r in channelMap ==> con !in channelMap[r].participants
      modifies this`objects
      ensures KeysValid() && ChannelsValid() && objects == old(objects) - {con.id}
    {
      hide Lower;
      forall r, p | r in channelMap && p in channelMap[r].participants
        ensures Live(p) && p.id != con.id && channelMap[r] in p.channelList
      {
        assert p != con;
      }
      objects := objects - {con.id};
      assert forall c, ch :: c in objects && ch in objects[c].channelList ==> c in old(objects) && ch in old(objects)[c].channelList;
    }

    method Release(con: ConnectionInstance)
      requires KeysValid() && ChannelsValid() && MembersMean() && Live(con)
      requires RoomsOf(Meaning(), con.id) == {}
      modifies this`objects
      ensures KeysValid() && ChannelsValid() && MembersMean() && objects == old(objects) - {con.id}
    {
      hide KeysAgree, ChannelsValid, Places;
      InNoChannel(con);
      Unwatch(con);
    }

    method Forgo(con: ConnectionInstance)
      requires KeysValid() && ChannelsValid() && LoginsMean() && MembersMean() && Live(con)
      requires RoomsOf(Meaning(), con.id) == {}
      modifies this`objects, this`logins
      ensures KeysValid() && ChannelsValid() && LoginsMean() && MembersMean()
      ensures objects == old(objects) - {con.id} && logins == old(logins) - {con.id}
    {
      hide KeysAgree, ChannelsValid, MembersMean, Places, ConnectionInstance.View;
      Release(con);
      logins := logins - {con.id};
    }

    lemma InNoChannel(con: ConnectionInstance)
      requires MembersMean() && Live(con) && RoomsOf(Meaning(), con.id) == {}
      ensures forall r :: (con.id, r) !in members
      ensures forall r :: r in channelMap ==> con !in channelMap[r].participants
    {
      assert forall r :: (con.id, r) in members ==> r in RoomsOf(Meaning(), con.id);
    }

    /** Out of the name map, or out of the list of the nameless. */
    method Strike(con: ConnectionInstance)
      requires KeysValid() && NamesValid() && ListValid() && CountsValid() && StaffValid() && LoginsMean() && Live(con)
      modifies this`connectionCountMap, this`connectionMap, this`userCount, this`staffCallTargets, this`unidentifiedList
      ensures NamesAgree(objects - {con.id}, connectionMap, logins - {con.id})
      ensures ListAgrees(objects - {con.id}, unidentifiedList, logins - {con.id})
      ensures CountsAgree(connectionMap, connectionCountMap, userCount, maxUserCount, logins - {con.id})
      ensures StaffValid()
    {
      hide KeysAgree, KeyedById, NamesAgree, ListAgrees, CountsAgree, StaffAgrees, LoginsMean;
      hide CountedDown, Lower, Without, ConnectionInstance.View;
      OnlyKey(con);
      GoneFromList(objects, unidentifiedList, logins, con);
      if con.identified {
        GoneWithName(objects, connectionMap, logins, con);
        TargetsDrop(connectionMap, con.characterNameLower, staffCallTargets);
        RemoveConnection(con.characterNameLower);
        NoLongerCounted(old(connectionMap), old(connectionCountMap), connectionCountMap, old(userCount), maxUserCount,
                        logins, logins - {con.id}, con.id);
      } else {
        GoneFromNames(objects, connectionMap, logins, con);
        GoneFromCounts(connectionMap, connectionCountMap, userCount, maxUserCount, logins, con.id);
        unidentifiedList := Without(unidentifiedList, con);
      }
    }

    /** The timer's last visit to a closed connection. */
    method ShutdownConnection(con: ConnectionInstance)
      requires Valid() && Live(con) && RoomsOf(Meaning(), con.id) == {}
      modifies this`connectionCountMap, this`connectionMap, this`userCount, this`staffCallTargets
      modifies this`unidentifiedList, this`objects, this`logins
      ensures Valid()
      ensures Meaning() == Teardown(old(Meaning()), con.id)
    {
      hide KeysAgree, NamesAgree, ListAgrees, CountsAgree, StaffAgrees, ChannelsValid, LoginsMean, RoomsMean, MembersMean;
      hide Lower, Places, ConnectionInstance.View;
      Strike(con);
      Forgo(con);
    }

    method Watch(con: ConnectionInstance)
      requires KeysValid() && ChannelsValid() && con.id == nextId && con.channelList == {}
      modifies this`objects, this`nextId
      ensures KeysValid() && ChannelsValid() && nextId == old(nextId) + 1
      ensures objects == old(objects)[con.id := con] && con.id !in old(objects)
    {
      hide Lower;
      forall r, p | r in channelMap && p in channelMap[r].participants
        ensures Live(p) && p.id != con.id && channelMap[r] in p.channelList
      {
      }
      objects := objects[con.id := con];
      nextId := nextId + 1;
    }

    method Enlarge(con: ConnectionInstance)
      requires KeysValid() && ChannelsValid() && MembersMean() && con.id == nextId && con.channelList == {}
      requires forall r :: r in channelMap ==> con !in channelMap[r].participants
      modifies this`objects, this`nextId
      ensures KeysValid() && ChannelsValid() && MembersMean() && nextId == old(nextId) + 1
      ensures objects == old(objects)[con.id := con] && con.id !in old(objects)
    {
      hide KeysAgree, ChannelsValid;
      Watch(con);
    }

    method Enroll(con: ConnectionInstance)
      requires KeysValid() && ChannelsValid() && LoginsMean() && MembersMean() && con.id == nextId && con.channelList == {}
      requires forall r :: r in channelMap ==> con !in channelMap[r].participants
      modifies this`objects, this`logins, this`nextId
      ensures KeysValid() && ChannelsValid() && LoginsMean() && MembersMean() && nextId == old(nextId) + 1
      ensures objects == old(objects)[con.id := con] && logins == old(logins)[con.id := con.View()]
    {
      hide KeysAgree, ChannelsValid, MembersMean, ConnectionInstance.View;
      Enlarge(con);
      logins := logins[con.id := con.View()];
    }

    /** A new connection; nobody knows yet who it is. */
    method ListenCallback(addr: Addr) returns (con: ConnectionInstance)
      requires Valid()
      modifies this`unidentifiedList, this`objects, this`logins, this`nextId
      ensures Valid() && Live(con)
      ensures Meaning() == Step(old(Meaning()), Accept(addr))
    {
      hide KeysAgree, NamesAgree, ListAgrees, CountsAgree, StaffAgrees, ChannelsValid, LoginsMean, RoomsMean, MembersMean;
      hide Lower, Disconnect, Obey, AnswerLogin;
      con := new ConnectionInstance(nextId, addr);
      IdIsNew();
      NewcomerIsNameless(objects, connectionMap, logins, con, con.View());
      NewcomerIsListed(objects, unidentifiedList, logins, con, con.View());
      NewcomerIsNotCounted(connectionMap, connectionCountMap, userCount, maxUserCount, logins, con.id, con.View());
      unidentifiedList := unidentifiedList + [con];
      Enroll(con);
    }

    lemma IdIsNew()
      requires KeysValid() && LoginsMean()
      ensures nextId !in objects && nextId !in logins
    {
    }

    // -----------------------------------------------------------------------
    // What a connection may ask for

    lemma ChannelCount(con: ConnectionInstance)
      requires Valid() && Live(con)
      ensures |con.channelList| == |RoomsOf(Meaning(), con.id)|
    {
      ChannelsToLeave(con);
      var names := LowerNames(con.channelList);
      forall r | r in names
        ensures r in RoomsOf(Meaning(), con.id)
      {
        assert (con.id, r) in members;
      }
      assert names == RoomsOf(Meaning(), con.id);
      NamesSize(con.channelList);
    }

    /** Joins a channel (JCH). */
    method JCH(con: ConnectionInstance, channel: Name)
      requires Valid() && Live(con)
      modifies this, objects.Values, channelMap.Values
      ensures Valid() && con.id in old(logins)
      ensures Meaning() == Obey(old(Meaning()), con.id, Command.JCH(channel))
    {
      hide Valid, Lower, EnterRoom, Places;
      LoginOf(con);
      RoomKeys();
      ChannelCount(con);
      if |con.channelList| >= MAX_CHANNELS && !con.unlimited {
        return;
      }
      if Lower(channel) !in channelMap {
        return;
      }
      var chan := channelMap[Lower(channel)];
      IsStored(Lower(channel));
      StoredIsLive(chan, con);
      MemberIsIn(chan, con);
      if con in chan.participants {
        return;
      }
      var override := con.AdminOrGlobal();
      if !chan.IsOwner(con) && !override && chan.IsBanned(con.characterNameLower, now) {
        return;
      }
      if chan.kind == Private && con.characterNameLower !in chan.invites && !chan.IsOwner(con) && !override {
        return;
      }
      JoinChannel(chan, con, chan.IsOwner(con) || override);
    }

    /** Leaves a channel (LCH). */
    method LCH(con: ConnectionInstance, channel: Name)
      requires Valid() && Live(con)
      modifies this, objects.Values, channelMap.Values
      ensures Valid() && con.id in old(logins)
      ensures Meaning() == Obey(old(Meaning()), con.id, Command.LCH(channel))
    {
      hide Valid, Lower, LeaveRoom;
      LoginOf(con);
      RoomKeys();
      if Lower(channel) in channelMap {
        var chan := channelMap[Lower(channel)];
        IsStored(Lower(channel));
        MemberIsIn(chan, con);
        if con in chan.participants {
          PartChannel(chan, con);
        }
      }
    }

    /** Destroys a channel (KIC). */
    method KIC(con: ConnectionInstance, channel: Name)
      requires Valid() && Live(con)
      modifies this, objects.Values, channelMap.Values
      ensures Valid() && con.id in old(logins)
      ensures Meaning() == Obey(old(Meaning()), con.id, Command.KIC(channel))
    {
      hide Valid, Lower, DestroyRoom;
      LoginOf(con);
      RoomKeys();
      if Lower(channel) in channelMap {
        var chan := channelMap[Lower(channel)];
        IsStored(Lower(channel));
        StoredIsLive(chan, con);
        if chan.IsOwner(con) || Admin in con.roles {
          DestroyChannel(Lower(channel));
        }
      }
    }

    /** Opens or closes a private channel (RST). */
    method RST(con: ConnectionInstance, channel: Name, open: bool)
      requires Valid() && Live(con)
      modifies this, objects.Values, channelMap.Values
      ensures Valid() && con.id in old(logins)
      ensures Meaning() == Obey(old(Meaning()), con.id, Command.RST(channel, open))
    {
      hide Valid, Lower;
      LoginOf(con);
      RoomKeys();
      if Lower(channel) in channelMap {
        var chan := channelMap[Lower(channel)];
        IsStored(Lower(channel));
        StoredIsLive(chan, con);
        if !chan.IsOwner(con) && !con.AdminOrGlobal() {
          return;
        }
        if chan.kind != Private && chan.kind != PubPrivate {
          return;
        }
        SetKind(chan, if open then PubPrivate else Private);
      }
    }

    /** Lifts a ban or a timeout (CUB). */
    method CUB(con: ConnectionInstance, channel: Name, target: Name)
      requires Valid() && Live(con)
      modifies this, objects.Values, channelMap.Values
      ensures Valid() && con.id in old(logins)
      ensures Meaning() == Obey(old(Meaning()), con.id, Command.CUB(channel, target))
    {
      hide Valid, Lower;
      LoginOf(con);
      RoomKeys();
      if Lower(channel) in channelMap {
        var chan := channelMap[Lower(channel)];
        IsStored(Lower(channel));
        StoredIsLive(chan, con);
        if !chan.IsMod(con) && !chan.StaffOverride(con) {
          return;
        }
        if !chan.IsBanned(Lower(target), now) {
          return;
        }
        SetBans(chan, chan.bans - {Lower(target)});
      }
    }

    /** The name map answers exactly as the registry means. */
    lemma FindIsLookup(lower: Name)
      requires Valid()
      ensures Find(Meaning(), lower) == if lower in connectionMap then Some(connectionMap[lower].id) else None
      ensures lower in connectionMap ==> Live(connectionMap[lower]) && connectionMap[lower].identified
    {
      var found := Find(Meaning(), lower);
      if found.Some? {
        assert found.value in Named(Meaning(), lower);
      }
      if lower in connectionMap {
        assert connectionMap[lower].id in Named(Meaning(), lower);
      }
    }

    /** Kicks somebody out of a channel (CKU). */
    method CKU(con: ConnectionInstance, channel: Name, target: Name)
      requires Valid() && Live(con)
      modifies this, objects.Values, channelMap.Values
      ensures Valid() && con.id in old(logins)
      ensures Meaning() == Obey(old(Meaning()), con.id, Command.CKU(channel, target))
    {
      hide Valid, Lower, LeaveRoom, ForgetInvite, Find;
      LoginOf(con);
      RoomKeys();
      FindIsLookup(Lower(target));
      if Lower(channel) !in channelMap || Lower(target) !in connectionMap {
        return;
      }
      var chan, victim := channelMap[Lower(channel)], connectionMap[Lower(target)];
      IsStored(Lower(channel));
      StoredIsLive(chan, con);
      LoginOf(victim);
      MemberIsIn(chan, con);
      MemberIsIn(chan, victim);
      var override := chan.StaffOverride(con);
      if !chan.IsMod(con) && !override {
        return;
      }
      if con !in chan.participants || victim !in chan.participants {
        return;
      }
      if chan.Protects(victim, override) {
        return;
      }
      Expel(chan, victim, Lower(target));
    }

    method Expel(chan: Channel, victim: ConnectionInstance, lower: Name)
      requires Valid() && Stored(chan) && Live(victim) && victim in chan.participants
      modifies this, objects.Values, channelMap.Values
      ensures Valid() && Lower(chan.name) in old(rooms)
      ensures Meaning() == LeaveRoom(ForgetInvite(old(Meaning()), Lower(chan.name), lower), victim.id, Lower(chan.name))
    {
      hide Valid, Lower, LeaveRoom, ForgetInvite;
      StoredIsLive(chan, victim);
      RemoveInvite(chan, lower);
      PartChannel(chan, victim);
    }

    /** Only a private channel has invitations to take back. */
    method RemoveInvite(chan: Channel, lower: Name)
      requires Valid() && Stored(chan)
      modifies this`rooms, chan`invites
      ensures Valid() && Lower(chan.name) in old(rooms)
      ensures Meaning() == ForgetInvite(old(Meaning()), Lower(chan.name), lower)
    {
      hide Valid, Lower;
      StoredMeans(chan);
      if chan.kind == Private {
        SetInvites(chan, chan.invites - {lower});
      }
    }

    lemma StoredMeans(chan: Channel)
      requires Valid() && Stored(chan)
      ensures Lower(chan.name) in rooms && rooms[Lower(chan.name)] == chan.View()
    {
    }

    method WriteBan(chan: Channel, lower: Name, record: BanRecord)
      requires Valid() && Stored(chan)
      modifies this, objects.Values, channelMap.Values
      ensures Valid() && Lower(chan.name) in old(rooms)
      ensures var w, r := old(Meaning()), Lower(chan.name);
              var banned := SetRoom(w, r, w.rooms[r].(bans := w.rooms[r].bans[lower := record]));
              var target := Find(w, lower);
              Meaning() == if target.Some? && (target.value, r) in w.members then LeaveRoom(banned, target.value, r) else banned
    {
      hide Valid, Lower, LeaveRoom, Find;
      StoredMeans(chan);
      FindIsLookup(lower);
      if lower in connectionMap {
        MemberIsIn(chan, connectionMap[lower]);
        StoredIsLive(chan, connectionMap[lower]);
      }
      ChannelIsListed(chan);
      SetBans(chan, chan.bans[lower := record]);
      if lower in connectionMap {
        var victim := connectionMap[lower];
        if victim in chan.participants {
          PartChannel(chan, victim);
        }
      }
    }

    lemma ChannelIsListed(chan: Channel)
      requires Stored(chan)
      ensures chan in channelMap.Values
    {
    }

    /** What bans and timeouts share: the checks, the record, the removal. */
    method BanOrTimeout(con: ConnectionInstance, chan: Channel, lower: Name, record: BanRecord)
      requires Valid() && Live(con) && Stored(chan)
      modifies this, objects.Values, channelMap.Values
      ensures Valid() && con.id in old(logins) && Lower(chan.name) in old(rooms)
      ensures Meaning() == Outlaw(old(Meaning()), con.id, Lower(chan.name), lower, record)
    {
      hide Valid, Lower, LeaveRoom, ForgetInvite, Find;
      LoginOf(con);
      StoredMeans(chan);
      FindIsLookup(lower);
      ChannelIsListed(chan);
      var override := chan.StaffOverride(con);
      if chan.BanCount(now) >= MAX_CHANNEL_BANS && !override {
        return;
      }
      if lower in connectionMap {
        LoginOf(connectionMap[lower]);
        if chan.Protects(connectionMap[lower], override) {
          return;
        }
      }
      ForgetInviteLeaves(Meaning(), Lower(chan.name), lower);
      RemoveInvite(chan, lower);
      if chan.IsBanned(lower, now) {
        return;
      }
      WriteBan(chan, lower, record);
    }

    /** Bans somebody from a channel (CBU). */
    method CBU(con: ConnectionInstance, channel: Name, target: Name)
      requires Valid() && Live(con)
      modifies this, objects.Values, channelMap.Values
      ensures Valid() && con.id in old(logins)
      ensures Meaning() == Obey(old(Meaning()), con.id, Command.CBU(channel, target))
    {
      hide Valid, Lower, Outlaw;
      LoginOf(con);
      RoomKeys();
      if Lower(channel) !in channelMap {
        return;
      }
      var chan := channelMap[Lower(channel)];
      IsStored(Lower(channel));
      StoredMeans(chan);
      if !chan.IsMod(con) && !chan.StaffOverride(con) {
        return;
      }
      BanOrTimeout(con, chan, Lower(target), BanRecord(con.characterName, now, 0));
    }

    /** Times somebody out from a channel (CTU). */
    method CTU(con: ConnectionInstance, channel: Name, target: Name, minutes: int)
      requires Valid() && Live(con)
      modifies this, objects.Values, channelMap.Values
      ensures Valid() && con.id in old(logins)
      ensures Meaning() == Obey(old(Meaning()), con.id, Command.CTU(channel, target, minutes))
    {
      hide Valid, Lower, Outlaw;
      LoginOf(con);
      RoomKeys();
      if minutes < 1 || Lower(channel) !in channelMap {
        return;
      }
      var chan := channelMap[Lower(channel)];
      IsStored(Lower(channel));
      StoredMeans(chan);
      MemberIsIn(chan, con);
      if !chan.IsMod(con) && !chan.StaffOverride(con) {
        return;
      }
      if con !in chan.participants {
        return;
      }
      BanOrTimeout(con, chan, Lower(target), BanRecord(con.characterName, now, now + minutes * 60));
    }

    // A new channel, layer by layer

    method Store(chan: Channel)
      requires KeysValid() && ChannelsValid() && Lower(chan.name) !in channelMap
      requires chan.participants == {} && chan.participantCount == 0 && chan.topUsers >= 0
      modifies this`channelMap
      ensures KeysValid() && ChannelsValid() && channelMap == old(channelMap)[Lower(chan.name) := chan]
    {
      hide Lower;
      forall c, ch | c in objects && ch in objects[c].channelList
        ensures Stored(ch) && objects[c] in ch.participants && Lower(ch.name) != Lower(chan.name)
      {
      }
      channelMap := channelMap[Lower(chan.name) := chan];
    }

    method Found(chan: Channel)
      requires KeysValid() && ChannelsValid() && RoomsMean() && MembersMean() && Lower(chan.name) !in channelMap
      requires chan.participants == {} && chan.participantCount == 0 && chan.topUsers >= 0
      modifies this`channelMap, this`rooms
      ensures KeysValid() && ChannelsValid() && RoomsMean() && MembersMean()
      ensures channelMap == old(channelMap)[Lower(chan.name) := chan]
      ensures rooms == old(rooms)[Lower(chan.name) := chan.View()]
    {
      hide Lower, KeysAgree, ChannelsValid, Channel.View;
      Store(chan);
      rooms := rooms[Lower(chan.name) := chan.View()];
    }

    /** Stores a new channel under a name that no other has. */
    method AddChannel(chan: Channel)
      requires Valid() && Lower(chan.name) !in channelMap
      requires chan.participants == {} && chan.participantCount == 0 && chan.topUsers >= 0
      modifies this`channelMap, this`rooms
      ensures Valid() && channelMap == old(channelMap)[Lower(chan.name) := chan]
      ensures Meaning() == SetRoom(old(Meaning()), Lower(chan.name), chan.View())
    {
      hide KeysValid, NamesValid, ListValid, CountsValid, StaffValid, ChannelsValid, LoginsMean, RoomsMean, MembersMean;
      hide Lower;
      Found(chan);
    }

    /** The first of the generated identifiers that no channel has. */
    method GeneratePrivateChannelID(candidates: seq<Name>) returns (id: Option<Name>)
      requires Valid()
      ensures id == FirstUnused(rooms, candidates)
      ensures id.Some? ==> id.value in candidates && Lower(id.value) !in channelMap
    {
      hide Valid, Lower;
      RoomKeys();
      var i := 0;
      while i < |candidates|
        invariant 0 <= i <= |candidates|
        invariant FirstUnused(rooms, candidates) == FirstUnused(rooms, candidates[i..])
      {
        if Lower(candidates[i]) !in channelMap {
          return Some(candidates[i]);
        }
        i := i + 1;
      }
      id := None;
    }

    /** Creates a private channel and joins it (CCR). */
    method CCR(con: ConnectionInstance, candidates: seq<Name>)
      requires Valid() && Live(con)
      modifies this, objects.Values, channelMap.Values
      ensures Valid() && con.id in old(logins)
      ensures Meaning() == Obey(old(Meaning()), con.id, Command.CCR(candidates))
    {
      hide Valid, Lower, EnterRoom, FirstUnused;
      LoginOf(con);
      var id := GeneratePrivateChannelID(candidates);
      if id.Some? {
        var chan := new Channel(id.value, Private, con.characterName, {con.characterNameLower});
        AddChannel(chan);
        JoinChannel(chan, con, false);
      }
    }

    /** Creates a public channel (CRC). */
    method CRC(con: ConnectionInstance, name: Name)
      requires Valid() && Live(con)
      modifies this, objects.Values, channelMap.Values
      ensures Valid() && con.id in old(logins)
      ensures Meaning() == Obey(old(Meaning()), con.id, Command.CRC(name))
    {
      hide Valid, Lower;
      LoginOf(con);
      RoomKeys();
      if Admin !in con.roles {
        return;
      }
      if Lower(name) !in channelMap {
        var chan := new Channel(name, Public, "", {});
        AddChannel(chan);
      }
    }

    // -----------------------------------------------------------------------
    // Logging in

    /** Asking for the count of an unknown address leaves a zero behind. */
    method GetConnectionIPCount(con: ConnectionInstance) returns (count: int)
      requires Valid() && Live(con)
      modifies this`connectionCountMap
      ensures Valid() && count == |OnAddress(Meaning(), con.addr)|
    {
      hide KeysValid, NamesValid, ListValid, StaffValid, ChannelsValid, LoginsMean, RoomsMean, MembersMean, LoggedInFrom;
      if con.addr !in connectionCountMap {
        connectionCountMap := connectionCountMap[con.addr := 0];
      }
      count := connectionCountMap[con.addr];
    }

    /** The holder of a name, if there is one, leaves everything and loses it. */
    method FreeTheName(lower: Name)
      requires Valid()
      modifies this, objects.Values, channelMap.Values
      ensures Valid() && lower !in connectionMap
      ensures objects == old(objects)
      ensures Within(channelMap, old(channelMap))
      ensures var holder := Find(old(Meaning()), lower);
              && (holder.Some? ==> holder.value in old(logins))
              && Meaning() == if holder.Some? then Displace(old(Meaning()), holder.value) else old(Meaning())
    {
      hide Valid, Lower, Find, Disconnect;
      FindIsLookup(lower);
      if lower in connectionMap {
        var holder := connectionMap[lower];
        LoginOf(holder);
        HolderHasName(lower);
        PreDisconnect(holder);
        Closef(holder);
      }
    }

    lemma HolderHasName(lower: Name)
      requires Valid() && lower in connectionMap
      ensures connectionMap[lower].characterNameLower == lower
    {
    }

    method AddRoles(con: ConnectionInstance, reply: Reply)
      requires Valid() && Live(con) && reply.Answer?
      modifies this`logins, con`roles, con`unlimited
      ensures Valid() && con.id in old(logins)
      ensures Meaning() == Rank(old(Meaning()), con.id, reply)
    {
      hide Valid, Lower, RolesOf;
      LoginOf(con);
      ghost var w, login := Meaning(), con.View();
      if Lower(reply.name) == "adl" {
        SetUnlimited(con, true);
      }
      SetRoles(con, con.roles + RolesOf(reply));
      SetLoginTwice(w, con.id, login.(unlimited := true), login.(roles := login.roles + RolesOf(reply), unlimited := true));
    }

    method AddToStaffCallTargets(con: ConnectionInstance)
      requires Valid() && Live(con) && con.identified
      modifies this`staffCallTargets
      ensures Valid()
    {
      hide KeysValid, NamesValid, ListValid, CountsValid, StaffAgrees, ChannelsValid, LoginsMean, RoomsMean, MembersMean;
      InMapUnderItsName(con);
      TargetsGrow(connectionMap, staffCallTargets, con.characterNameLower);
      staffCallTargets := staffCallTargets + {con};
    }

    lemma InMapUnderItsName(con: ConnectionInstance)
      requires NamesValid() && LoginsMean() && Live(con) && con.identified
      ensures con.characterNameLower in connectionMap && connectionMap[con.characterNameLower] == con
    {
    }

    lemma NowhereMeansOutside(c: ConId, r: Name)
      requires RoomsOf(Meaning(), c) == {}
      ensures (c, r) !in members
    {
      assert (c, r) in members ==> r in RoomsOf(Meaning(), c);
    }

    /** Staff are invited to the staff room and join it at once. */
    method EnterStaffRoom(con: ConnectionInstance, reply: Reply)
      requires Valid() && Live(con) && reply.Answer? && RoomsOf(Meaning(), con.id) == {}
      modifies this`rooms, this`members, this`exempt, objects.Values`channelList, channelMap.Values`invites
      modifies channelMap.Values`participants, channelMap.Values`participantCount, channelMap.Values`topUsers
      ensures Valid() && con.id in old(logins)
      ensures Meaning() == JoinStaff(old(Meaning()), con.id, reply)
    {
      hide Valid, Lower, EnterRoom, Places;
      LoginOf(con);
      RoomKeys();
      if (reply.staff || reply.operator || reply.superCop || reply.cop) && STAFF_ROOM in channelMap {
        var chan := channelMap[STAFF_ROOM];
        IsStored(STAFF_ROOM);
        StoredMeans(chan);
        ChannelIsListed(chan);
        NowhereMeansOutside(con.id, STAFF_ROOM);
        SetInvites(chan, chan.invites + {con.characterNameLower});
        MemberIsIn(chan, con);
        JoinChannel(chan, con, true);
      }
    }

    /** The second half of the login callback, once the name is free. */
    method TakeName(con: ConnectionInstance, reply: Reply) returns (ok: bool)
      requires Valid() && Live(con) && reply.Answer? && !con.identified && Lower(reply.name) !in connectionMap
      requires RoomsOf(Meaning(), con.id) == {}
      modifies this, objects.Values, channelMap.Values
      ensures Valid() && con.id in old(logins) && Live(con)
      ensures Admit(old(Meaning()), con.id, reply) == if ok then Meaning() else DelayClose(Meaning(), con.id)
    {
      hide Valid, Lower, RolesOf, Rank, JoinStaff, Places;
      LoginOf(con);
      ghost var w, c := Meaning(), con.id;
      var named := SetIdent(con, reply.name, Lower(reply.name));
      if reply.anonymous {
        return false;
      }
      AddRoles(con, reply);
      LoginOf(con);
      RankKeepsPlace(Identify(w, c, reply.name), c, reply);
      if reply.serverBanned && !reply.operator && !reply.admin {
        return false;
      }
      if reply.timedOut && !reply.operator && !reply.admin {
        SetDelayClose(con);
        return true;
      }
      if reply.superCop {
        SetRoles(con, con.roles + {SuperCop});
      }
      LoginOf(con);
      if reply.operator || reply.superCop {
        AddToStaffCallTargets(con);
      }
      EnterStaffRoom(con, reply);
      ok := true;
    }

    lemma RankKeepsPlace(w: World, c: ConId, reply: Reply)
      requires c in w.cons && reply.Answer?
      ensures c in Rank(w, c, reply).cons && Rank(w, c, reply).members == w.members
      ensures Rank(w, c, reply).cons[c].identified == w.cons[c].identified
    {
    }

    /** The login callback: a name for the connection, or an error. */
    method IdentCallback(con: ConnectionInstance, reply: Reply) returns (ok: bool)
      requires Valid() && Live(con) && reply.Answer? && !con.identified && RoomsOf(Meaning(), con.id) == {}
      modifies this, objects.Values, channelMap.Values
      ensures Valid() && con.id in old(logins) && Live(con)
      ensures AnswerLogin(old(Meaning()), con.id, reply) == if ok then Meaning() else DelayClose(Meaning(), con.id)
    {
      hide Valid, Lower, Admit, Disconnect, Find, Places, LoggedInFrom;
      LoginOf(con);
      if reply.error {
        return false;
      }
      var count := GetConnectionIPCount(con);
      if count as real >= cap {
        return false;
      }
      HolderIsAnother(con, Lower(reply.name));
      FreeTheName(Lower(reply.name));
      LoginOf(con);
      if reply.barred {
        return false;
      }
      ok := TakeName(con, reply);
    }

    /** A nameless connection is not the one that loses its name, and stays nowhere. */
    lemma HolderIsAnother(con: ConnectionInstance, lower: Name)
      requires Valid() && Live(con) && !con.identified && RoomsOf(Meaning(), con.id) == {}
      ensures var holder := Find(Meaning(), lower);
              holder.Some? ==>
                && holder.value in logins
                && var v := Displace(Meaning(), holder.value);
                   RoomsOf(v, con.id) == {} && con.id in v.cons && v.cons[con.id] == logins[con.id]
    {
      FindIsLookup(lower);
      var holder := Find(Meaning(), lower);
      if holder.Some? {
        var v := Displace(Meaning(), holder.value);
        forall r
          ensures (con.id, r) !in v.members
        {
          NowhereMeansOutside(con.id, r);
        }
      }
    }

    /** An answer of the login server arrives. */
    method ProcessLogin(con: ConnectionInstance, reply: Reply)
      requires Valid() && Live(con) && !con.identified && RoomsOf(Meaning(), con.id) == {}
      modifies this, objects.Values, channelMap.Values
      ensures Valid() && con.id in old(logins)
      ensures Meaning() == AnswerLogin(old(Meaning()), con.id, reply)
    {
      hide Valid, AnswerLogin, Places;
      LoginOf(con);
      FailureCloses(Meaning(), con.id, reply);
      if reply.LoginFailed? {
        SetDelayClose(con);
      } else {
        var ok := IdentCallback(con, reply);
        if !ok {
          SetDelayClose(con);
        }
      }
    }

    lemma FailureCloses(w: World, c: ConId, reply: Reply)
      requires c in w.cons
      ensures reply.LoginFailed? ==> AnswerLogin(w, c, reply) == DelayClose(w, c)
    {
    }

    // -----------------------------------------------------------------------
    // Events

    /** The handshake's outcome. */
    method HandshakeCallback(con: ConnectionInstance, good: bool, realAddr: Option<Addr>)
      requires Valid() && Live(con) && (con.identified ==> con.upgraded)
      modifies this, objects.Values, channelMap.Values
      ensures Valid()
      ensures Meaning() == Step(old(Meaning()), Handshake(con.id, good, realAddr))
    {
      hide Valid, Shutdown, Obey, AnswerLogin;
      LoginOf(con);
      if con.closed || con.upgraded {
        return;
      }
      if !good {
        PrepareShutdown(con);
      } else {
        Upgrade(con, if realAddr.Some? then realAddr.value else con.addr);
      }
    }

    /** The IDN command: one login attempt per connection. */
    method IdentCommand(con: ConnectionInstance, accepted: bool)
      requires Valid() && Live(con) && !con.closed && con.upgraded
      modifies this, objects.Values, channelMap.Values
      ensures Valid()
      ensures Meaning() == Step(old(Meaning()), Ident(con.id, accepted))
    {
      hide Valid, Shutdown, Obey, AnswerLogin;
      LoginOf(con);
      if con.identified || con.authStarted {
        SetDelayClose(con);
        return;
      }
      ghost var w, c, login := Meaning(), con.id, con.View();
      StartAuth(con);
      if accepted {
        Await(con, true);
        SetLoginTwice(w, c, login.(authStarted := true), login.(authStarted := true, pending := true));
      } else {
        SetDelayClose(con);
        SetLoginTwice(w, c, login.(authStarted := true), login.(authStarted := true, delayClose := true));
      }
    }

    /** A command other than IDN. */
    method RunCommand(con: ConnectionInstance, command: Command)
      requires Valid() && Live(con) && !con.closed && con.upgraded
      modifies this, objects.Values, channelMap.Values
      ensures Valid()
      ensures Meaning() == Step(old(Meaning()), Perform(con.id, command))
    {
      hide Valid, Shutdown, Obey, AnswerLogin;
      LoginOf(con);
      if !con.identified {
        SetDelayClose(con);
        return;
      }
      match command
      case JCH(r) => JCH(con, r);
      case LCH(r) => LCH(con, r);
      case CCR(candidates) => CCR(con, candidates);
      case CRC(name) => CRC(con, name);
      case CKU(r, target) => CKU(con, r, target);
      case CBU(r, target) => CBU(con, r, target);
      case CTU(r, target, minutes) => CTU(con, r, target, minutes);
      case CUB(r, target) => CUB(con, r, target);
      case KIC(r) => KIC(con, r);
      case RST(r, open) => RST(con, r, open);
    }

    /** The connection timer; the only place where a connection ends. */
    method TimerCallback(con: ConnectionInstance, expired: bool)
      requires Valid() && Live(con) && (con.closed ==> RoomsOf(Meaning(), con.id) == {})
      modifies this, objects.Values, channelMap.Values
      ensures Valid()
      ensures Meaning() == Step(old(Meaning()), Timer(con.id, expired))
    {
      hide Valid, Shutdown, Obey, AnswerLogin, Places;
      LoginOf(con);
      if con.closed {
        ShutdownConnection(con);
      } else if con.delayClose || expired {
        PrepareShutdown(con);
      }
    }

    lemma CountIsRight(chan: Channel)
      requires Valid() && Stored(chan)
      ensures chan.participantCount == |chan.participants|
    {
    }

    /** Which open channels are empty and idle. */
    method FindUnusedChannels(unused: set<Name>) returns (toRemove: set<Name>)
      requires Valid()
      ensures toRemove == Unused(Meaning(), unused) && toRemove <= channelMap.Keys
      ensures forall r :: r in toRemove ==> channelMap[r].participants == {}
    {
      hide Valid, Lower, Occupants;
      RoomKeys();
      toRemove := {};
      var todo := channelMap.Keys;
      while todo != {}
        invariant todo <= channelMap.Keys
        invariant toRemove == Unused(Meaning(), unused) - todo
        invariant forall r :: r in toRemove ==> channelMap[r].participants == {}
        decreases todo
      {
        var r :| r in todo;
        IsStored(r);
        VanishesWithLast(channelMap[r]);
        // Recounting the participants first changes nothing.
        CountIsRight(channelMap[r]);
        if channelMap[r].kind == PubPrivate && channelMap[r].participantCount <= 0 && r in unused {
          toRemove := toRemove + {r};
        }
        todo := todo - {r};
      }
    }

    /** The daily cleaning. */
    method RemoveUnusedChannels(unused: set<Name>)
      requires Valid()
      modifies this`channelMap, this`rooms
      ensures Valid()
      ensures Meaning() == Sweep(old(Meaning()), unused)
    {
      hide Valid, Lower, DestroyRoom, Unused;
      var toRemove := FindUnusedChannels(unused);
      ghost var w := Meaning();
      var todo := toRemove;
      while todo != {}
        invariant Valid() && todo <= toRemove
        invariant forall r :: r in todo ==> r in channelMap && channelMap[r].participants == {}
        invariant Meaning() == w.(rooms := w.rooms - (toRemove - todo))
        decreases todo
      {
        var r :| r in todo;
        NobodyLeft(r);
        RemoveChannel(r);
        todo := todo - {r};
        assert toRemove - todo == toRemove - (todo + {r}) + {r};
      }
      assert toRemove - todo == toRemove;
    }

    method Tick(time: int)
      requires Valid()
      modifies this`now
      ensures Valid() && Meaning() == Step(old(Meaning()), Event.Tick(time))
    {
      hide KeysValid, NamesValid, ListValid, CountsValid, StaffValid, ChannelsValid, LoginsMean, RoomsMean, MembersMean;
      hide Shutdown, Obey, AnswerLogin;
      if time > now {
        now := time;
      }
    }

    /** The relay hands its answer over; a closed connection ignores it. */
    method ProcessWakeup(con: ConnectionInstance, reply: Reply)
      requires Valid() && Live(con) && (con.pending ==> !con.identified) 
      requires !con.identified ==> RoomsOf(Meaning(), con.id) == {}
      modifies this, objects.Values, channelMap.Values
      ensures Valid()
      ensures Meaning() == Step(old(Meaning()), LoginReply(con.id, reply))
    {
      hide Valid, Shutdown, Obey, AnswerLogin, Places;
      LoginOf(con);
      if con.pending {
        Await(con, false);
        LoginOf(con);
        if !con.closed {
          ProcessLogin(con, reply);
        }
      }
    }

    lemma Standing(c: ConId)
      requires Valid() && Inv(Meaning()) && c in objects
      ensures Live(objects[c]) && c in logins && logins[c] == objects[c].View() && objects[c].id == c
      ensures objects[c].identified ==> objects[c].upgraded
      ensures objects[c].closed || !objects[c].identified ==> RoomsOf(Meaning(), c) == {}
      ensures objects[c].pending ==> !objects[c].identified
    {
    }

    /** The commands that hand a channel's ownership, moderators or invitations around. */
    method Administer(r: Name, owner: Name, moderators: set<Name>, invites: set<Name>)
      requires Valid()
      modifies this`rooms, channelMap.Values`owner, channelMap.Values`moderators, channelMap.Values`invites
      ensures Valid()
      ensures Meaning() == Step(old(Meaning()), Event.Administer(r, owner, moderators, invites))
    {
      hide Valid, Lower, Shutdown, Obey, AnswerLogin;
      RoomKeys();
      if r in channelMap {
        var chan := channelMap[r];
        IsStored(r);
        ghost var w := Meaning();
        SetOwner(chan, owner);
        SetModerators(chan, moderators);
        SetInvites(chan, invites);
        assert Meaning().rooms == Step(w, Event.Administer(r, owner, moderators, invites)).rooms;
      }
    }

    /** Any event: the server's structures stay in agreement, what must hold goes
        on holding, and what they mean changes as the specification says. */
    method Handle(e: Event)
      requires Valid() && Inv(Meaning())
      modifies this, objects.Values, channelMap.Values
      ensures Valid() && Inv(Meaning())
      ensures Meaning() == Step(old(Meaning()), e)
    {
      hide Valid, Inv, Lower, Shutdown, Obey, AnswerLogin, Places, Sweep;
      StepKeeps(Meaning(), e);
      RoomKeys();
      match e
      case Tick(time) => Tick(time);
      case Accept(addr) => var _ := ListenCallback(addr);
      case Handshake(c, good, realAddr) =>
        if c in objects {
          Standing(c);
          HandshakeCallback(objects[c], good, realAddr);
        }
      case Ident(c, accepted) =>
        if c in objects {
          Standing(c);
          if !objects[c].closed && objects[c].upgraded {
            IdentCommand(objects[c], accepted);
          }
        }
      case LoginReply(c, reply) =>
        if c in objects {
          Standing(c);
          ProcessWakeup(objects[c], reply);
        }
      case Perform(c, command) =>
        if c in objects {
          Standing(c);
          if !objects[c].closed && objects[c].upgraded {
            RunCommand(objects[c], command);
          }
        }
      case Hangup(c) =>
        if c in objects {
          Standing(c);
          PrepareShutdown(objects[c]);
        }
      case Close(c) =>
        if c in objects {
          Standing(c);
          SetDelayClose(objects[c]);
        }
      case Timer(c, expired) =>
        if c in objects {
          Standing(c);
          TimerCallback(objects[c], expired);
        }
      case Administer(r, owner, moderators, invites) => Administer(r, owner, moderators, invites);
      case Reassign(c, roles) =>
        if c in objects {
          Standing(c);
          SetRoles(objects[c], roles);
        }
      case Idle(unused) => RemoveUnusedChannels(unused);
    }

    // -----------------------------------------------------------------------
    // Whole runs of the server

    ghost method Chronicle(w: World, events: seq<Event>)
      requires Valid()
      modifies this`origin, this`trace
      ensures Valid() && origin == w && trace == events
    {
      hide KeysValid, NamesValid, ListValid, CountsValid, StaffValid, ChannelsValid, LoginsMean, RoomsMean, MembersMean;
      origin, trace := w, events;
    }

    /** One more event of a run: after any number of them the server's structures
        agree and mean what the specification's run from the same start means. */
    method Serve(e: Event)
      requires Valid() && Reached()
      modifies this, objects.Values, channelMap.Values
      ensures Valid() && Reached() && origin == old(origin) && trace == old(trace) + [e]
    {
      hide Valid, Inv, Step, Run, Start;
      ghost var w, events := origin, trace;
      ReachedKeeps();
      RunOneMore(w, events, e);
      Handle(e);
      Chronicle(w, events + [e]);
    }

    lemma ReachedKeeps()
      requires Reached()
      ensures Inv(Meaning())
    {
      hide Inv, Run;
      StartHolds(origin);
      RunKeeps(origin, trace);
    }

    /** After any run, whoever is on a channel in spite of an active ban joined it
        with a privilege and has been on it ever since. */
    lemma BannedParticipantIsPrivileged(r: Name, con: ConnectionInstance)
      requires Valid() && Reached() && r in channelMap && con in channelMap[r].participants
      requires Banned(channelMap[r].View(), con.characterNameLower, now)
      ensures exists i :: JoinedPrivileged(origin, trace, i, con.id, r)
    {
      hide KeysValid, NamesValid, ListValid, CountsValid, StaffValid, Run, Start, JoinedPrivileged, Banned;
      assert Live(con) && (con.id, r) in members;
      assert logins[con.id] == con.View() && rooms[r] == channelMap[r].View();
      BannedMembersJoinedPrivileged(origin, trace, con.id, r);
    }

    /** After any run, the counters are right and no address is over the cap. */
    lemma CountersHoldTheCap(a: Addr)
      requires Valid() && Reached()
      ensures userCount == |connectionMap| <= maxUserCount
      ensures var count := CountAt(connectionCountMap, a);
              && count == |OnAddress(Meaning(), a)| && (count == 0 || count as real < cap + 1.0)
    {
      hide Valid, Inv, Start, Run;
      ReachedKeeps();
      CountersAreRight(a);
    }
  }
}
