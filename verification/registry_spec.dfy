/** What the chat server's registry means: who is logged in under which name, who
    is in which room, and who is banned from it. There is no redundancy here;
    the module Registry keeps the server's own overlapping structures and is
    proved to refine this one. */
module RegistrySpec {
  import opened Options

  type ConId = nat
  type Name = string
  type Addr = int

  function LowerChar(c: char): char {
    if 'A' <= c <= 'Z' then ((c as int) + 32) as char else c
  }

  function Lower(name: Name): (r: Name)
    ensures |r| == |name|
  {
    seq(|name|, i requires 0 <= i < |name| => LowerChar(name[i]))
  }

  datatype Role = Admin | Global | SuperCop | Cop

  datatype RoomKind = Public | Private | PubPrivate

  /** A ban; a timeout of zero never ends. */
  datatype BanRecord = BanRecord(banner: Name, time: int, timeout: int)
  {
    predicate Active(now: int) {
      timeout == 0 || timeout >= now
    }
  }

  datatype Login = Login(
    addr: Addr,
    upgraded: bool,
    authStarted: bool,
    pending: bool,
    identified: bool,
    closed: bool,
    delayClose: bool,
    name: Name,
    lower: Name,
    roles: set<Role>,
    unlimited: bool)

  datatype Room = Room(
    name: Name,
    kind: RoomKind,
    canDestroy: bool,
    top: int,
    owner: Name,
    moderators: set<Name>,
    invites: set<Name>,
    bans: map<Name, BanRecord>)

  /** `exempt` marks the memberships that began in spite of bans: those of an
      owner, admin or global moderator, and the staff-room auto-join. */
  datatype World = World(
    now: int,
    cap: real,
    next: ConId,
    cons: map<ConId, Login>,
    rooms: map<Name, Room>,
    members: set<(ConId, Name)>,
    exempt: set<(ConId, Name)>)

  const STAFF_ROOM: Name := "adh-uberawesomestaffroom"
  const MAX_CHANNELS: nat := 75
  const MAX_CHANNEL_BANS: nat := 300

  // -------------------------------------------------------------------------
  // Queries

  predicate Registered(w: World, c: ConId) {
    c in w.cons && w.cons[c].identified
  }

  function LoggedInFrom(cons: map<ConId, Login>, a: Addr): set<ConId> {
    set c | c in cons && cons[c].identified && cons[c].addr == a
  }

  function OnAddress(w: World, a: Addr): set<ConId> {
    LoggedInFrom(w.cons, a)
  }

  function Occupants(members: set<(ConId, Name)>, r: Name): set<ConId> {
    set m | m in members && m.1 == r :: m.0
  }

  function MembersOf(w: World, r: Name): set<ConId> {
    Occupants(w.members, r)
  }

  function Places(members: set<(ConId, Name)>, c: ConId): set<Name> {
    set m | m in members && m.0 == c :: m.1
  }

  function RoomsOf(w: World, c: ConId): set<Name> {
    Places(w.members, c)
  }

  /** With unique names (UniqueNames), at most one. */
  function Named(w: World, lower: Name): set<ConId> {
    set c | c in w.cons && w.cons[c].identified && w.cons[c].lower == lower
  }

  predicate Banned(room: Room, lower: Name, now: int) {
    lower in room.bans && room.bans[lower].Active(now)
  }

  function ActiveBans(room: Room, now: int): set<Name> {
    set n | n in room.bans && room.bans[n].Active(now)
  }

  predicate IsOwner(room: Room, login: Login) {
    room.owner == login.name
  }

  predicate IsMod(room: Room, login: Login) {
    room.owner == login.name || login.name in room.moderators
  }

  predicate AdminOrGlobal(login: Login) {
    Admin in login.roles || Global in login.roles
  }

  predicate StaffOverride(room: Room, login: Login) {
    AdminOrGlobal(login) || (room.kind.Public? && SuperCop in login.roles)
  }

  /** Whom a kick, ban or timeout may not touch. */
  predicate Protected(room: Room, target: Login, override: bool) {
    if room.kind.Public? && (IsMod(room, target) || target.roles != {}) then true
    else !override && (IsOwner(room, target) || Global in target.roles)
  }

  /** Whether a room that has just lost its last member goes away. */
  predicate Vanishes(room: Room) {
    (room.kind.Private? && room.canDestroy) || (room.kind.PubPrivate? && room.top < 5)
  }

  // -------------------------------------------------------------------------
  // What must hold between any two events

  ghost predicate UniqueNames(w: World) {
    forall c, d :: Registered(w, c) && Registered(w, d) && w.cons[c].lower == w.cons[d].lower ==> c == d
  }

  ghost predicate MembersLive(w: World) {
    forall m :: m in w.members ==> Registered(w, m.0) && !w.cons[m.0].closed && m.1 in w.rooms
  }

  ghost predicate LoginsSane(w: World) {
    forall c :: c in w.cons ==>
      && (w.cons[c].pending ==> w.cons[c].authStarted && w.cons[c].upgraded && !w.cons[c].identified)
      && (w.cons[c].identified ==> w.cons[c].authStarted && w.cons[c].upgraded && w.cons[c].lower == Lower(w.cons[c].name))
  }

  ghost predicate RoomsNamed(w: World) {
    forall r :: r in w.rooms ==> r == Lower(w.rooms[r].name)
  }

  /** A member under an active ban or timeout joined with a privilege. */
  ghost predicate BansEnforced(w: World) {
    forall m :: m in w.members && m.0 in w.cons && m.1 in w.rooms ==>
      Banned(w.rooms[m.1], w.cons[m.0].lower, w.now) ==> m in w.exempt
  }

  /** No address has reached the cap and then one more. */
  ghost predicate CapKept(w: World) {
    forall a :: OnAddress(w, a) == {} || (|OnAddress(w, a)| as real) < w.cap + 1.0
  }

  ghost predicate IdsUsed(w: World) {
    forall c :: c in w.cons ==> c < w.next
  }

  ghost predicate Inv(w: World) {
    && UniqueNames(w) && MembersLive(w) && LoginsSane(w) && RoomsNamed(w) && BansEnforced(w)
    && w.exempt <= w.members && CapKept(w) && IdsUsed(w)
  }

  // -------------------------------------------------------------------------
  // Changes to one membership, one room or one login

  function Depart(w: World, c: ConId, r: Name): World {
    w.(members := w.members - {(c, r)}, exempt := w.exempt - {(c, r)})
  }

  /** Leaving a room; the last member of a temporary room takes the room along. */
  function LeaveRoom(w: World, c: ConId, r: Name): World
    requires r in w.rooms
  {
    var left := Depart(w, c, r);
    if MembersOf(left, r) == {} && Vanishes(w.rooms[r]) then left.(rooms := left.rooms - {r}) else left
  }

  function EnterRoom(w: World, c: ConId, r: Name, privileged: bool): World
    requires r in w.rooms
  {
    var entered := w.(members := w.members + {(c, r)},
                      exempt := if privileged then w.exempt + {(c, r)} else w.exempt);
    var count := |MembersOf(entered, r)|;
    if count > w.rooms[r].top then entered.(rooms := w.rooms[r := w.rooms[r].(top := count)]) else entered
  }

  /** Destroying a room removes everybody from it first. */
  function DestroyRoom(w: World, r: Name): World {
    w.(rooms := w.rooms - {r},
       members := (set m: (ConId, Name) | m in w.members && m.1 != r),
       exempt := (set m: (ConId, Name) | m in w.exempt && m.1 != r))
  }

  /** The rooms that vanish when `c` leaves all of its rooms at once. */
  function LeftEmpty(w: World, c: ConId): set<Name> {
    set r | r in w.rooms && (c, r) in w.members && MembersOf(w, r) == {c} && Vanishes(w.rooms[r])
  }

  /** What goes before any close: the connection leaves every room. */
  function Disconnect(w: World, c: ConId): World
    requires c in w.cons
  {
    var rooms := w.rooms - LeftEmpty(w, c);
    w.(members := (set m: (ConId, Name) | m in w.members && m.0 != c),
       exempt := (set m: (ConId, Name) | m in w.exempt && m.0 != c),
       rooms := Uninvite(rooms, Lower(w.cons[c].name)))
  }

  /** Halfway through a disconnect: `c` has left the rooms in `done`. */
  function LeaveSome(w: World, c: ConId, done: set<Name>): World {
    w.(members := (set m: (ConId, Name) | m in w.members && !(m.0 == c && m.1 in done)),
       exempt := (set m: (ConId, Name) | m in w.exempt && !(m.0 == c && m.1 in done)),
       rooms := w.rooms - LeftEmpty(w, c) * done)
  }

  lemma LeaveOneMore(w: World, c: ConId, done: set<Name>, r: Name)
    requires w.exempt <= w.members && (c, r) in w.members && r in w.rooms && r !in done
    ensures r in LeaveSome(w, c, done).rooms
    ensures LeaveRoom(LeaveSome(w, c, done), c, r) == LeaveSome(w, c, done + {r})
  {
    var v, left := LeaveSome(w, c, done), Depart(LeaveSome(w, c, done), c, r);
    assert left.members == LeaveSome(w, c, done + {r}).members;
    assert left.exempt == LeaveSome(w, c, done + {r}).exempt;
    forall d
      ensures d in MembersOf(left, r) <==> d in MembersOf(w, r) && d != c
    {
      assert d in MembersOf(left, r) <==> (d, r) in left.members;
      assert d in MembersOf(w, r) <==> (d, r) in w.members;
    }
    assert MembersOf(left, r) == MembersOf(w, r) - {c};
    assert c in MembersOf(w, r);
    assert MembersOf(left, r) == {} <==> MembersOf(w, r) == {c};
    assert LeaveRoom(v, c, r).rooms == LeaveSome(w, c, done + {r}).rooms;
  }

  lemma LeftSoFar(w: World, c: ConId, done: set<Name>)
    ensures LeaveSome(w, c, done).rooms.Keys <= w.rooms.Keys
    ensures forall r :: (c, r) in LeaveSome(w, c, done).members <==> (c, r) in w.members && r !in done
  {
  }

  lemma LeaveNone(w: World, c: ConId)
    ensures LeaveSome(w, c, {}) == w
  {
  }

  lemma LeaveAll(w: World, c: ConId)
    requires c in w.cons && w.exempt <= w.members
    ensures var left := LeaveSome(w, c, RoomsOf(w, c));
            Disconnect(w, c) == left.(rooms := Uninvite(left.rooms, Lower(w.cons[c].name)))
  {
    var left := LeaveSome(w, c, RoomsOf(w, c));
    assert forall m :: m in w.members && m.0 == c ==> m.1 in RoomsOf(w, c);
    assert LeftEmpty(w, c) <= RoomsOf(w, c);
    assert LeftEmpty(w, c) * RoomsOf(w, c) == LeftEmpty(w, c);
    assert left.members == Disconnect(w, c).members;
    assert left.exempt == Disconnect(w, c).exempt;
  }

  /** Forgets an invitation to the staff room. */
  function Uninvite(rooms: map<Name, Room>, lower: Name): map<Name, Room> {
    if STAFF_ROOM in rooms
    then rooms[STAFF_ROOM := rooms[STAFF_ROOM].(invites := rooms[STAFF_ROOM].invites - {lower})]
    else rooms
  }

  function SetLogin(w: World, c: ConId, login: Login): World {
    w.(cons := w.cons[c := login])
  }

  function SetRoom(w: World, r: Name, room: Room): World {
    w.(rooms := w.rooms[r := room])
  }

  lemma SetLoginTwice(w: World, c: ConId, first: Login, second: Login)
    ensures SetLogin(SetLogin(w, c, first), c, second) == SetLogin(w, c, second)
  {
    assert w.cons[c := first][c := second] == w.cons[c := second];
  }

  function DelayClose(w: World, c: ConId): World
    requires c in w.cons
  {
    SetLogin(w, c, w.cons[c].(delayClose := true))
  }

  /** The first stage of a close. */
  function Shutdown(w: World, c: ConId): World
    requires c in w.cons
  {
    if w.cons[c].closed then w
    else
      var left := if w.cons[c].identified then Disconnect(w, c) else w;
      SetLogin(left, c, left.cons[c].(closed := true))
  }

  /** A second login takes the name: the first one is out at once, its
      connection closes later. */
  function Displace(w: World, c: ConId): World
    requires c in w.cons
  {
    Unname(Disconnect(w, c), c)
  }

  function Teardown(w: World, c: ConId): World {
    w.(cons := w.cons - {c})
  }

  // -------------------------------------------------------------------------
  // The changes keep what must hold

  lemma LeaveRoomKeeps(w: World, c: ConId, r: Name)
    requires Inv(w) && r in w.rooms
    ensures Inv(LeaveRoom(w, c, r))
  {
    var left := Depart(w, c, r);
    if MembersOf(left, r) == {} && Vanishes(w.rooms[r]) {
      assert forall m :: m in left.members && m.1 == r ==> m.0 in MembersOf(left, r);
    }
    SameLogins(w, LeaveRoom(w, c, r));
  }

  /** What only logins decide is untouched when only rooms and members change. */
  lemma SameLogins(w: World, v: World)
    requires w.cons == v.cons && w.cap == v.cap && w.next == v.next
    ensures UniqueNames(w) ==> UniqueNames(v)
    ensures LoginsSane(w) ==> LoginsSane(v)
    ensures CapKept(w) ==> CapKept(v)
    ensures IdsUsed(w) ==> IdsUsed(v)
  {
    assert forall a :: OnAddress(w, a) == OnAddress(v, a);
  }

  lemma EnterRoomKeeps(w: World, c: ConId, r: Name, privileged: bool)
    requires Inv(w) && r in w.rooms && Registered(w, c) && !w.cons[c].closed
    requires privileged || !Banned(w.rooms[r], w.cons[c].lower, w.now)
    ensures Inv(EnterRoom(w, c, r, privileged))
  {
    SameLogins(w, EnterRoom(w, c, r, privileged));
  }

  lemma DestroyRoomKeeps(w: World, r: Name)
    requires Inv(w)
    ensures Inv(DestroyRoom(w, r))
  {
    SameLogins(w, DestroyRoom(w, r));
  }

  /** A room that nobody is in simply goes. */
  lemma DestroyEmptyRoom(w: World, r: Name)
    requires w.exempt <= w.members && MembersOf(w, r) == {}
    ensures DestroyRoom(w, r) == w.(rooms := w.rooms - {r})
  {
    forall m | m in w.members
      ensures m.1 != r
    {
      assert m.1 == r ==> m.0 in MembersOf(w, r);
    }
  }

  lemma DestroyAfterDepart(w: World, c: ConId, r: Name)
    ensures DestroyRoom(Depart(w, c, r), r) == DestroyRoom(w, r)
  {
  }

  lemma DisconnectKeeps(w: World, c: ConId)
    requires Inv(w) && c in w.cons
    ensures Inv(Disconnect(w, c))
    ensures var v := Disconnect(w, c); v.cons == w.cons && v.cap == w.cap && RoomsOf(v, c) == {}
  {
    var v := Disconnect(w, c);
    forall m | m in v.members
      ensures m.1 in v.rooms
    {
      assert m.0 in MembersOf(w, m.1);
    }
    SameLogins(w, v);
  }

  /** A login that changes only in ways the registry does not look at. */
  lemma SetLoginKeeps(w: World, c: ConId, login: Login)
    requires Inv(w) && c in w.cons
    requires var was := w.cons[c];
             login == was.(delayClose := login.delayClose, closed := login.closed, upgraded := login.upgraded,
                           authStarted := login.authStarted, pending := login.pending, roles := login.roles,
                           unlimited := login.unlimited, addr := login.addr)
    requires login.closed && !w.cons[c].closed ==> RoomsOf(w, c) == {}
    requires login.identified ==> login.addr == w.cons[c].addr
    requires login.pending ==> login.authStarted && login.upgraded && !login.identified
    requires login.identified ==> login.authStarted && login.upgraded
    ensures Inv(SetLogin(w, c, login))
  {
    var v := SetLogin(w, c, login);
    forall m | m in w.members && m.0 == c
      ensures !login.closed
    {
      assert m.1 in RoomsOf(w, c);
    }
    assert forall a :: OnAddress(v, a) == OnAddress(w, a);
  }

  lemma ShutdownKeeps(w: World, c: ConId)
    requires Inv(w) && c in w.cons
    ensures Inv(Shutdown(w, c))
  {
    if !w.cons[c].closed {
      var left := if w.cons[c].identified then Disconnect(w, c) else w;
      DisconnectKeeps(w, c);
      assert RoomsOf(left, c) == {};
      SetLoginKeeps(left, c, left.cons[c].(closed := true));
    }
  }

  function Unname(w: World, c: ConId): World
    requires c in w.cons
  {
    SetLogin(w, c, w.cons[c].(delayClose := true, identified := false))
  }

  lemma UnnameLeavesAddress(w: World, c: ConId, a: Addr)
    requires c in w.cons
    ensures OnAddress(Unname(w, c), a) == OnAddress(w, a) - {c}
  {
  }

  lemma UnnameKeepsMembers(w: World, c: ConId)
    requires MembersLive(w) && c in w.cons && RoomsOf(w, c) == {}
    ensures MembersLive(Unname(w, c))
  {
    forall m | m in w.members
      ensures m.0 != c
    {
      assert m.0 == c ==> m.1 in RoomsOf(w, c);
    }
  }

  lemma UnnameKeeps(w: World, c: ConId)
    requires Inv(w) && Registered(w, c) && RoomsOf(w, c) == {}
    ensures Inv(Unname(w, c))
  {
    UnnameKeepsMembers(w, c);
    forall a
      ensures OnAddress(Unname(w, c), a) <= OnAddress(w, a)
    {
      UnnameLeavesAddress(w, c, a);
    }
    FewerOnAddress(w, Unname(w, c));
    hide OnAddress, CapKept, MembersLive, Lower, Places;
  }

  /** A connection that loses its name keeps nothing else. */
  lemma DisplaceKeeps(w: World, c: ConId)
    requires Inv(w) && Registered(w, c)
    ensures Inv(Displace(w, c))
    ensures forall d :: Registered(Displace(w, c), d) <==> Registered(w, d) && d != c
    ensures forall a :: OnAddress(Displace(w, c), a) == OnAddress(w, a) - {c}
  {
    hide Inv, Disconnect, LoggedInFrom, Places;
    DisconnectKeeps(w, c);
    UnnameKeeps(Disconnect(w, c), c);
    forall a
      ensures OnAddress(Displace(w, c), a) == OnAddress(w, a) - {c}
    {
      UnnameLeavesAddress(Disconnect(w, c), c, a);
    }
  }

  lemma FewerOnAddress(w: World, v: World)
    requires CapKept(w) && v.cap == w.cap
    requires forall a :: OnAddress(v, a) <= OnAddress(w, a)
    ensures CapKept(v)
  {
    forall a
      ensures |OnAddress(v, a)| <= |OnAddress(w, a)|
    {
      SubsetSize(OnAddress(v, a), OnAddress(w, a));
    }
  }

  lemma {:induction false} SubsetSize<T>(a: set<T>, b: set<T>)
    requires a <= b
    ensures |a| <= |b|
  {
    assert b == a + (b - a);
  }

  lemma TeardownKeeps(w: World, c: ConId)
    requires Inv(w) && c in w.cons && w.cons[c].closed
    ensures Inv(Teardown(w, c))
  {
    var v := Teardown(w, c);
    assert forall a :: OnAddress(v, a) <= OnAddress(w, a);
    FewerOnAddress(w, v);
  }

  /** A room whose name stays and whose bans hit no member who was not hit before. */
  lemma SetRoomKeeps(w: World, r: Name, room: Room)
    requires Inv(w) && r == Lower(room.name)
    requires forall m :: m in w.members && m.1 == r && Banned(room, w.cons[m.0].lower, w.now) ==> m in w.exempt
    ensures Inv(SetRoom(w, r, room))
  {
    SameLogins(w, SetRoom(w, r, room));
  }

  /** A name is given only when it is free and its address is below the cap. */
  function Identify(w: World, c: ConId, name: Name): World
    requires c in w.cons
  {
    SetLogin(w, c, w.cons[c].(identified := true, name := name, lower := Lower(name)))
  }

  lemma IdentifyAtAddress(w: World, c: ConId, name: Name, a: Addr)
    requires c in w.cons && !w.cons[c].identified
    ensures OnAddress(Identify(w, c, name), a)
            == if a == w.cons[c].addr then OnAddress(w, a) + {c} else OnAddress(w, a)
  {
  }

  lemma IdentifyKeepsNames(w: World, c: ConId, name: Name)
    requires UniqueNames(w) && c in w.cons && Named(w, Lower(name)) == {}
    ensures UniqueNames(Identify(w, c, name))
  {
    forall d | Registered(w, d)
      ensures w.cons[d].lower != Lower(name)
    {
      assert d !in Named(w, Lower(name));
    }
  }

  lemma IdentifyKeepsCap(w: World, c: ConId, name: Name)
    requires CapKept(w) && c in w.cons && !w.cons[c].identified
    requires (|OnAddress(w, w.cons[c].addr)| as real) < w.cap
    ensures CapKept(Identify(w, c, name))
  {
    hide Lower, LoggedInFrom;
    forall a
      ensures OnAddress(Identify(w, c, name), a)
              == if a == w.cons[c].addr then OnAddress(w, a) + {c} else OnAddress(w, a)
    {
      IdentifyAtAddress(w, c, name, a);
    }
  }

  lemma IdentifyKeeps(w: World, c: ConId, name: Name)
    requires Inv(w) && c in w.cons && !w.cons[c].identified
    requires w.cons[c].authStarted && w.cons[c].upgraded && !w.cons[c].pending
    requires Named(w, Lower(name)) == {}
    requires (|OnAddress(w, w.cons[c].addr)| as real) < w.cap
    ensures Inv(Identify(w, c, name))
  {
    hide CapKept, UniqueNames, Lower, Banned;
    IdentifyKeepsNames(w, c, name);
    IdentifyKeepsCap(w, c, name);
  }

  // -------------------------------------------------------------------------
  // Commands of an identified connection

  ghost function Pick(s: set<ConId>): (r: Option<ConId>)
    ensures r.Some? ==> r.value in s
    ensures r.None? ==> s == {}
  {
    if c :| c in s then Some(c) else None
  }

  /** The connection registered under a lower-case name. */
  ghost function Find(w: World, lower: Name): (r: Option<ConId>)
    ensures r.Some? ==> r.value in Named(w, lower)
    ensures r.None? ==> Named(w, lower) == {}
  {
    Pick(Named(w, lower))
  }

  ghost function Join(w: World, c: ConId, r: Name): World
    requires c in w.cons
  {
    var me := w.cons[c];
    if |RoomsOf(w, c)| >= MAX_CHANNELS && !me.unlimited then w
    else if r !in w.rooms || (c, r) in w.members then w
    else
      var room := w.rooms[r];
      var privileged := IsOwner(room, me) || AdminOrGlobal(me);
      if !privileged && Banned(room, me.lower, w.now) then w
      else if room.kind.Private? && me.lower !in room.invites && !privileged then w
      else EnterRoom(w, c, r, privileged)
  }

  function Leave(w: World, c: ConId, r: Name): World {
    if r in w.rooms && (c, r) in w.members then LeaveRoom(w, c, r) else w
  }

  /** The first of the generated identifiers that no room has. */
  function FirstUnused(rooms: map<Name, Room>, candidates: seq<Name>): (id: Option<Name>)
    ensures id.Some? ==> id.value in candidates && Lower(id.value) !in rooms
  {
    if candidates == [] then None
    else if Lower(candidates[0]) !in rooms then Some(candidates[0])
    else FirstUnused(rooms, candidates[1..])
  }

  function CreatePrivate(w: World, c: ConId, candidates: seq<Name>): World
    requires c in w.cons
  {
    match FirstUnused(w.rooms, candidates)
    case None => w
    case Some(id) =>
      var room := Room(id, Private, true, 0, w.cons[c].name, {}, {w.cons[c].lower}, map[]);
      EnterRoom(SetRoom(w, Lower(id), room), c, Lower(id), false)
  }

  function CreatePublic(w: World, c: ConId, name: Name): World
    requires c in w.cons
  {
    if Admin in w.cons[c].roles && Lower(name) !in w.rooms
    then SetRoom(w, Lower(name), Room(name, Public, true, 0, "", {}, {}, map[]))
    else w
  }

  function ForgetInvite(w: World, r: Name, lower: Name): World
    requires r in w.rooms
  {
    if w.rooms[r].kind.Private? then SetRoom(w, r, w.rooms[r].(invites := w.rooms[r].invites - {lower})) else w
  }

  ghost function Kick(w: World, c: ConId, r: Name, lower: Name): World
    requires c in w.cons
  {
    if r !in w.rooms then w
    else match Find(w, lower)
      case None => w
      case Some(d) =>
        var room, me, target := w.rooms[r], w.cons[c], w.cons[d];
        var override := StaffOverride(room, me);
        if !IsMod(room, me) && !override then w
        else if (c, r) !in w.members || (d, r) !in w.members then w
        else if Protected(room, target, override) then w
        else LeaveRoom(ForgetInvite(w, r, lower), d, r)
  }

  /** What bans and timeouts share: the checks, the record, the removal. */
  ghost function Outlaw(w: World, c: ConId, r: Name, lower: Name, record: BanRecord): World
    requires c in w.cons && r in w.rooms
  {
    var room, me := w.rooms[r], w.cons[c];
    var override := StaffOverride(room, me);
    var target := Find(w, lower);
    if |ActiveBans(room, w.now)| >= MAX_CHANNEL_BANS && !override then w
    else if target.Some? && Protected(room, w.cons[target.value], override) then w
    else
      var v := ForgetInvite(w, r, lower);
      if Banned(room, lower, w.now) then v
      else
        var banned := SetRoom(v, r, v.rooms[r].(bans := v.rooms[r].bans[lower := record]));
        if target.Some? && (target.value, r) in w.members then LeaveRoom(banned, target.value, r) else banned
  }

  ghost function Ban(w: World, c: ConId, r: Name, lower: Name): World
    requires c in w.cons
  {
    if r !in w.rooms then w
    else if !IsMod(w.rooms[r], w.cons[c]) && !StaffOverride(w.rooms[r], w.cons[c]) then w
    else Outlaw(w, c, r, lower, BanRecord(w.cons[c].name, w.now, 0))
  }

  ghost function TimeOut(w: World, c: ConId, r: Name, lower: Name, minutes: int): World
    requires c in w.cons
  {
    if minutes < 1 || r !in w.rooms then w
    else if !IsMod(w.rooms[r], w.cons[c]) && !StaffOverride(w.rooms[r], w.cons[c]) then w
    else if (c, r) !in w.members then w
    else Outlaw(w, c, r, lower, BanRecord(w.cons[c].name, w.now, w.now + minutes * 60))
  }

  function Unban(w: World, c: ConId, r: Name, lower: Name): World
    requires c in w.cons
  {
    if r !in w.rooms then w
    else
      var room := w.rooms[r];
      if !IsMod(room, w.cons[c]) && !StaffOverride(room, w.cons[c]) then w
      else if !Banned(room, lower, w.now) then w
      else SetRoom(w, r, room.(bans := room.bans - {lower}))
  }

  function Destroy(w: World, c: ConId, r: Name): World
    requires c in w.cons
  {
    if r in w.rooms && (IsOwner(w.rooms[r], w.cons[c]) || Admin in w.cons[c].roles) then DestroyRoom(w, r) else w
  }

  function SetStatus(w: World, c: ConId, r: Name, open: bool): World
    requires c in w.cons
  {
    if r in w.rooms && (IsOwner(w.rooms[r], w.cons[c]) || AdminOrGlobal(w.cons[c])) && !w.rooms[r].kind.Public?
    then SetRoom(w, r, w.rooms[r].(kind := if open then PubPrivate else Private))
    else w
  }

  datatype Command =
    | JCH(room: Name)
    | LCH(room: Name)
    | CCR(candidates: seq<Name>)
    | CRC(name: Name)
    | CKU(room: Name, target: Name)
    | CBU(room: Name, target: Name)
    | CTU(room: Name, target: Name, minutes: int)
    | CUB(room: Name, target: Name)
    | KIC(room: Name)
    | RST(room: Name, open: bool)

  ghost function Obey(w: World, c: ConId, command: Command): World
    requires c in w.cons
  {
    match command
    case JCH(r) => Join(w, c, Lower(r))
    case LCH(r) => Leave(w, c, Lower(r))
    case CCR(candidates) => CreatePrivate(w, c, candidates)
    case CRC(name) => CreatePublic(w, c, name)
    case CKU(r, target) => Kick(w, c, Lower(r), Lower(target))
    case CBU(r, target) => Ban(w, c, Lower(r), Lower(target))
    case CTU(r, target, minutes) => TimeOut(w, c, Lower(r), Lower(target), minutes)
    case CUB(r, target) => Unban(w, c, Lower(r), Lower(target))
    case KIC(r) => Destroy(w, c, Lower(r))
    case RST(r, open) => SetStatus(w, c, Lower(r), open)
  }

  // -------------------------------------------------------------------------
  // Logging in

  /** The login server's answer, as far as the registry looks at it. */
  datatype Reply =
    | LoginFailed
    | Answer(
        error: bool,
        name: Name,
        barred: bool,
        anonymous: bool,
        admin: bool,
        operator: bool,
        cop: bool,
        superCop: bool,
        serverBanned: bool,
        timedOut: bool,
        staff: bool)

  function RolesOf(reply: Reply): set<Role>
    requires reply.Answer?
  {
    (if reply.admin then {Admin} else {}) + (if reply.operator then {Global} else {})
    + (if reply.cop then {Cop} else {})
  }

  function Rank(w: World, c: ConId, reply: Reply): World
    requires c in w.cons && reply.Answer?
  {
    var login := w.cons[c];
    SetLogin(w, c, login.(roles := login.roles + RolesOf(reply), unlimited := login.unlimited || Lower(reply.name) == "adl"))
  }

  function Promote(w: World, c: ConId, reply: Reply): World
    requires c in w.cons && reply.Answer?
  {
    if reply.superCop then SetLogin(w, c, w.cons[c].(roles := w.cons[c].roles + {SuperCop})) else w
  }

  predicate StaffLogin(reply: Reply) {
    reply.Answer? && (reply.staff || reply.operator || reply.superCop || reply.cop)
  }

  /** Staff are invited to the staff room and join it at once. */
  function JoinStaff(w: World, c: ConId, reply: Reply): World
    requires c in w.cons && reply.Answer?
  {
    if StaffLogin(reply) && STAFF_ROOM in w.rooms then
      var room := w.rooms[STAFF_ROOM];
      EnterRoom(SetRoom(w, STAFF_ROOM, room.(invites := room.invites + {w.cons[c].lower})), c, STAFF_ROOM, true)
    else w
  }

  /** The name is free now: take it, then see whether the character may stay. */
  function Admit(w: World, c: ConId, reply: Reply): World
    requires c in w.cons && reply.Answer?
  {
    var named := Identify(w, c, reply.name);
    if reply.anonymous then DelayClose(named, c)
    else
      var ranked := Rank(named, c, reply);
      if (reply.serverBanned || reply.timedOut) && !reply.operator && !reply.admin then DelayClose(ranked, c)
      else JoinStaff(Promote(ranked, c, reply), c, reply)
  }

  ghost function AnswerLogin(w: World, c: ConId, reply: Reply): World
    requires c in w.cons
  {
    if reply.LoginFailed? || reply.error then DelayClose(w, c)
    else if |OnAddress(w, w.cons[c].addr)| as real >= w.cap then DelayClose(w, c)
    else
      var holder := Find(w, Lower(reply.name));
      var freed := if holder.Some? then Displace(w, holder.value) else w;
      if reply.barred then DelayClose(freed, c) else Admit(freed, c, reply)
  }

  // -------------------------------------------------------------------------
  // Events and runs

  datatype Event =
    | Tick(time: int)
    | Accept(addr: Addr)
    | Handshake(c: ConId, good: bool, realAddr: Option<Addr>)
    | Ident(c: ConId, accepted: bool)
    | LoginReply(c: ConId, reply: Reply)
    | Perform(c: ConId, command: Command)
    | Hangup(c: ConId)
    | Close(c: ConId)
    | Timer(c: ConId, expired: bool)
    | Administer(room: Name, owner: Name, moderators: set<Name>, invites: set<Name>)
    | Reassign(c: ConId, roles: set<Role>)
    | Idle(unused: set<Name>)

  function NewLogin(addr: Addr): Login {
    Login(addr, false, false, false, false, false, false, "", "", {}, false)
  }

  /** Empty rooms of the open kind that nobody has used lately. */
  function Unused(w: World, unused: set<Name>): set<Name> {
    set r | r in w.rooms && r in unused && w.rooms[r].kind.PubPrivate? && MembersOf(w, r) == {}
  }

  /** Daily cleaning. */
  function Sweep(w: World, unused: set<Name>): World {
    w.(rooms := w.rooms - Unused(w, unused))
  }

  ghost function Step(w: World, e: Event): World {
    match e
    case Tick(time) => w.(now := if time > w.now then time else w.now)
    case Accept(addr) => w.(cons := w.cons[w.next := NewLogin(addr)], next := w.next + 1)
    case Handshake(c, good, realAddr) =>
      if c !in w.cons || w.cons[c].closed || w.cons[c].upgraded then w
      else if !good then Shutdown(w, c)
      else
        var addr := if realAddr.Some? then realAddr.value else w.cons[c].addr;
        SetLogin(w, c, w.cons[c].(upgraded := true, addr := addr))
    case Ident(c, accepted) =>
      if c !in w.cons || w.cons[c].closed || !w.cons[c].upgraded then w
      else if w.cons[c].identified || w.cons[c].authStarted then DelayClose(w, c)
      else if !accepted then SetLogin(w, c, w.cons[c].(authStarted := true, delayClose := true))
      else SetLogin(w, c, w.cons[c].(authStarted := true, pending := true))
    case LoginReply(c, reply) =>
      if c !in w.cons || !w.cons[c].pending then w
      else
        var answered := SetLogin(w, c, w.cons[c].(pending := false));
        if w.cons[c].closed then answered else AnswerLogin(answered, c, reply)
    case Perform(c, command) =>
      if c !in w.cons || w.cons[c].closed || !w.cons[c].upgraded then w
      else if !w.cons[c].identified then DelayClose(w, c)
      else Obey(w, c, command)
    case Hangup(c) => if c in w.cons then Shutdown(w, c) else w
    case Close(c) => if c in w.cons then DelayClose(w, c) else w
    case Timer(c, expired) =>
      if c !in w.cons then w
      else if w.cons[c].closed then Teardown(w, c)
      else if w.cons[c].delayClose || expired then Shutdown(w, c)
      else w
    case Administer(r, owner, moderators, invites) =>
      if r in w.rooms
      then SetRoom(w, r, w.rooms[r].(owner := owner, moderators := moderators, invites := invites)) else w
    case Reassign(c, roles) => if c in w.cons then SetLogin(w, c, w.cons[c].(roles := roles)) else w
    case Idle(unused) => Sweep(w, unused)
  }

  ghost function Run(w: World, events: seq<Event>): World
    decreases |events|
  {
    if events == [] then w else Run(Step(w, events[0]), events[1..])
  }

  // -------------------------------------------------------------------------
  // Every event keeps what must hold

  /** Taking an invitation back changes nothing else. */
  lemma ForgetInviteLeaves(w: World, r: Name, lower: Name)
    requires r in w.rooms
    ensures var v := ForgetInvite(w, r, lower);
            && v.members == w.members && v.cons == w.cons && v.now == w.now && Find(v, lower) == Find(w, lower)
            && r in v.rooms && v.rooms[r].bans == w.rooms[r].bans
  {
    assert Named(ForgetInvite(w, r, lower), lower) == Named(w, lower);
  }

  lemma ForgetInviteKeeps(w: World, r: Name, lower: Name)
    requires Inv(w) && r in w.rooms
    ensures Inv(ForgetInvite(w, r, lower))
  {
    if w.rooms[r].kind.Private? {
      SetRoomKeeps(w, r, w.rooms[r].(invites := w.rooms[r].invites - {lower}));
    }
  }

  lemma JoinKeeps(w: World, c: ConId, r: Name)
    requires Inv(w) && Registered(w, c) && !w.cons[c].closed
    ensures Inv(Join(w, c, r))
  {
    hide Inv;
    if Join(w, c, r) != w {
      EnterRoomKeeps(w, c, r, IsOwner(w.rooms[r], w.cons[c]) || AdminOrGlobal(w.cons[c]));
    }
  }

  lemma CreatePrivateKeeps(w: World, c: ConId, candidates: seq<Name>)
    requires Inv(w) && Registered(w, c) && !w.cons[c].closed
    ensures Inv(CreatePrivate(w, c, candidates))
  {
    var id := FirstUnused(w.rooms, candidates);
    if id.Some? {
      var room := Room(id.value, Private, true, 0, w.cons[c].name, {}, {w.cons[c].lower}, map[]);
      SetRoomKeeps(w, Lower(id.value), room);
      EnterRoomKeeps(SetRoom(w, Lower(id.value), room), c, Lower(id.value), false);
    }
  }

  lemma KickKeeps(w: World, c: ConId, r: Name, lower: Name)
    requires Inv(w) && c in w.cons
    ensures Inv(Kick(w, c, r, lower))
  {
    hide Inv;
    if r in w.rooms && Find(w, lower).Some? {
      ForgetInviteKeeps(w, r, lower);
      LeaveRoomKeeps(ForgetInvite(w, r, lower), Find(w, lower).value, r);
    }
  }

  /** Writing a ban and removing its target leaves no member newly banned. */
  lemma OutlawKeeps(w: World, c: ConId, r: Name, lower: Name, record: BanRecord)
    requires Inv(w) && c in w.cons && r in w.rooms
    ensures Inv(Outlaw(w, c, r, lower, record))
  {
    ForgetInviteKeeps(w, r, lower);
    var v := ForgetInvite(w, r, lower);
    var target := Find(w, lower);
    BanThenLeaveKeeps(v, r, lower, record, target);
  }

  lemma BanThenLeaveKeeps(w: World, r: Name, lower: Name, record: BanRecord, target: Option<ConId>)
    requires Inv(w) && r in w.rooms
    requires target.Some? ==> target.value in Named(w, lower)
    requires target.None? ==> Named(w, lower) == {}
    ensures var banned := SetRoom(w, r, w.rooms[r].(bans := w.rooms[r].bans[lower := record]));
            Inv(if target.Some? && (target.value, r) in w.members then LeaveRoom(banned, target.value, r) else banned)
  {
    var room := w.rooms[r].(bans := w.rooms[r].bans[lower := record]);
    forall m | m in w.members && m.1 == r && w.cons[m.0].lower == lower
      ensures target == Some(m.0)
    {
      assert m.0 in Named(w, lower);
    }
    if target.Some? && (target.value, r) in w.members {
      // Leaving first and banning afterwards comes to the same world.
      var banned := SetRoom(w, r, room);
      LeaveRoomKeeps(w, target.value, r);
      var left := LeaveRoom(w, target.value, r);
      var out := LeaveRoom(banned, target.value, r);
      assert MembersOf(Depart(w, target.value, r), r) == MembersOf(Depart(banned, target.value, r), r);
      if r in left.rooms {
        SetRoomKeeps(left, r, room);
        assert out == SetRoom(left, r, room);
      } else {
        assert out == left;
      }
    } else {
      SetRoomKeeps(w, r, room);
    }
  }

  lemma ObeyKeeps(w: World, c: ConId, command: Command)
    requires Inv(w) && Registered(w, c) && !w.cons[c].closed
    ensures Inv(Obey(w, c, command))
  {
    hide Inv, Lower, Join, CreatePrivate, Kick, Outlaw, LeaveRoom, DestroyRoom, Banned, Find;
    match command
    case JCH(r) => JoinKeeps(w, c, Lower(r));
    case LCH(r) => if Lower(r) in w.rooms { LeaveRoomKeeps(w, c, Lower(r)); }
    case CCR(candidates) => CreatePrivateKeeps(w, c, candidates);
    case CRC(name) => if Lower(name) !in w.rooms { NewRoomKeeps(w, name); }
    case CKU(r, target) => KickKeeps(w, c, Lower(r), Lower(target));
    case CBU(r, target) =>
      if Lower(r) in w.rooms { OutlawKeeps(w, c, Lower(r), Lower(target), BanRecord(w.cons[c].name, w.now, 0)); }
    case CTU(r, target, minutes) =>
      if Lower(r) in w.rooms {
        OutlawKeeps(w, c, Lower(r), Lower(target), BanRecord(w.cons[c].name, w.now, w.now + minutes * 60));
      }
    case CUB(r, target) => if Lower(r) in w.rooms { FewerBansKeeps(w, Lower(r), Lower(target)); }
    case KIC(r) => DestroyRoomKeeps(w, Lower(r));
    case RST(r, open) => if Lower(r) in w.rooms { SetKindKeeps(w, Lower(r), if open then PubPrivate else Private); }
  }

  lemma NewRoomKeeps(w: World, name: Name)
    requires Inv(w) && Lower(name) !in w.rooms
    ensures Inv(SetRoom(w, Lower(name), Room(name, Public, true, 0, "", {}, {}, map[])))
  {
    SetRoomKeeps(w, Lower(name), Room(name, Public, true, 0, "", {}, {}, map[]));
  }

  lemma FewerBansKeeps(w: World, r: Name, lower: Name)
    requires Inv(w) && r in w.rooms
    ensures Inv(SetRoom(w, r, w.rooms[r].(bans := w.rooms[r].bans - {lower})))
  {
    SetRoomKeeps(w, r, w.rooms[r].(bans := w.rooms[r].bans - {lower}));
  }

  lemma SetKindKeeps(w: World, r: Name, kind: RoomKind)
    requires Inv(w) && r in w.rooms
    ensures Inv(SetRoom(w, r, w.rooms[r].(kind := kind)))
  {
    SetRoomKeeps(w, r, w.rooms[r].(kind := kind));
  }
}
