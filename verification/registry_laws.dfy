/** The laws of the registry, event by event and over runs: who gets a role, who
    gets into a room and out of it, who writes bans, who closes. They speak of
    fields before and after an event and use none of the functions that the
    events are made of. */
module RegistryLaws {
  import opened Options
  import opened RegistrySpec
  import opened RegistryRuns

  // -------------------------------------------------------------------------
  // Rights, in terms of fields

  predicate Owns(room: Room, me: Login) {
    me.name == room.owner
  }

  predicate HasRule(room: Room, me: Login) {
    me.name == room.owner || me.name in room.moderators || IsStaff(room, me)
  }

  predicate IsStaff(room: Room, me: Login) {
    Admin in me.roles || Global in me.roles || (room.kind == Public && SuperCop in me.roles)
  }

  /** In a public room nobody who rules there or has a role can be touched; in
      others only staff can touch the owner or a global moderator. */
  predicate Shielded(room: Room, me: Login, target: Login) {
    if room.kind == Public && (target.name == room.owner || target.name in room.moderators || |target.roles| > 0) then true
    else !IsStaff(room, me) && (Owns(room, target) || Global in target.roles)
  }

  predicate Outlawed(room: Room, lower: Name, now: int) {
    lower in room.bans && (room.bans[lower].timeout == 0 || now <= room.bans[lower].timeout)
  }

  /** Joins in spite of bans and without an invitation. */
  predicate Privileged(room: Room, me: Login) {
    Owns(room, me) || Admin in me.roles || Global in me.roles
  }

  /** A named connection, open, whose command this is. */
  predicate Acts(w: World, e: Event, c: ConId) {
    e.Perform? && e.c == c && c in w.cons && w.cons[c].identified && w.cons[c].upgraded && !w.cons[c].closed
  }

  // -------------------------------------------------------------------------
  // Names without case

  const UPPERS := "ABCDEFGHIJKLMNOPQRSTUVWXYZ"
  const LOWERS := "abcdefghijklmnopqrstuvwxyz"

  lemma AlphabetIsOrdered(k: nat)
    requires k < 26
    ensures UPPERS[k] as int == 65 + k && LOWERS[k] as int == 97 + k
  {
  }

  /** Capitals become the small letters of the same places, and nothing else changes. */
  lemma LowerTurnsCapitals(name: Name, i: nat)
    requires i < |name|
    ensures |Lower(name)| == |name|
    ensures forall k :: 0 <= k < 26 && name[i] == UPPERS[k] ==> Lower(name)[i] == LOWERS[k]
    ensures (forall k :: 0 <= k < 26 ==> name[i] != UPPERS[k]) ==> Lower(name)[i] == name[i]
  {
    forall k | 0 <= k < 26
      ensures UPPERS[k] as int == 65 + k && LOWERS[k] as int == 97 + k
    {
      AlphabetIsOrdered(k);
    }
    if 65 <= name[i] as int <= 90 {
      assert name[i] == UPPERS[name[i] as int - 65];
    }
  }

  // -------------------------------------------------------------------------
  // Roles

  /** The events that give a role: a login whose answer says so, and the commands
      that hand roles around. */
  predicate GivesRole(e: Event, c: ConId, role: Role) {
    || (e.Reassign? && e.c == c && role in e.roles)
    || (e.LoginReply? && e.c == c && e.reply.Answer?
        && match role
           case Admin => e.reply.admin
           case Global => e.reply.operator
           case Cop => e.reply.cop
           case SuperCop => e.reply.superCop)
  }

  predicate HasRole(w: World, c: ConId, role: Role) {
    c in w.cons && role in w.cons[c].roles
  }

  // What a login answer comes to

  /** The answer gives the connection its name. */
  ghost predicate Admitted(w: World, c: ConId, reply: Reply)
    requires c in w.cons
  {
    && reply.Answer? && !reply.error && !reply.barred
    && |set d | d in w.cons && w.cons[d].identified && w.cons[d].addr == w.cons[c].addr| as real < w.cap
  }

  /** The answer names an account and a character. */
  predicate Complete(reply: Reply) {
    reply.Answer? && !reply.anonymous
  }

  /** Banned or timed out from the server, and not above that. */
  predicate TurnedAway(reply: Reply) {
    reply.Answer? && (reply.serverBanned || reply.timedOut) && !reply.operator && !reply.admin
  }

  predicate SaysRole(reply: Reply, role: Role) {
    reply.Answer?
    && match role
       case Admin => reply.admin
       case Global => reply.operator
       case Cop => reply.cop
       case SuperCop => reply.superCop && !TurnedAway(reply)
  }

  /** The name, the roles and the closing that an answer leads to, exactly. */
  predicate SettlesAs(was: Login, admitted: bool, reply: Reply, now: Login)
    requires admitted ==> reply.Answer?
  {
    && now.identified == admitted
    && (if admitted then now.name == reply.name && now.lower == Lower(reply.name) else now.name == was.name && now.lower == was.lower)
    && (forall role :: role in now.roles <==> role in was.roles || (admitted && Complete(reply) && SaysRole(reply, role)))
    && now.delayClose == (was.delayClose || !admitted || !Complete(reply) || TurnedAway(reply))
    && now.unlimited == (was.unlimited || (admitted && Complete(reply) && Lower(reply.name) == "adl"))
    && now.closed == was.closed && now.addr == was.addr && now.upgraded == was.upgraded && now.authStarted == was.authStarted
  }

  ghost predicate Settles(w: World, c: ConId, reply: Reply, now: Login)
    requires c in w.cons
  {
    SettlesAs(w.cons[c], Admitted(w, c, reply), reply, now)
  }

  lemma FreeingLeavesOthers(w: World, d: ConId, c: ConId)
    requires c in w.cons && d in w.cons
    ensures var v := Displace(w, d);
            && v.cons.Keys == w.cons.Keys && (c != d ==> v.cons[c] == w.cons[c])
            && v.cons[d] == w.cons[d].(identified := false, delayClose := true)
  {
  }

  lemma StaffRoomLeavesLogins(w: World, c: ConId, reply: Reply)
    requires c in w.cons && reply.Answer?
    ensures JoinStaff(w, c, reply).cons == w.cons
  {
    hide MembersOf;
  }

  lemma AdmitSettles(w: World, c: ConId, reply: Reply)
    requires c in w.cons && reply.Answer?
    ensures SettlesAs(w.cons[c], true, reply, Admit(w, c, reply).cons[c])
  {
    hide Lower, JoinStaff;
    if !reply.anonymous {
      StaffRoomLeavesLogins(Promote(Rank(Identify(w, c, reply.name), c, reply), c, reply), c, reply);
    }
  }

  lemma RefusalSettles(was: Login, reply: Reply)
    requires !was.identified
    ensures SettlesAs(was, false, reply, was.(delayClose := true))
  {
  }

  lemma AnswerSettles(w: World, c: ConId, reply: Reply)
    requires c in w.cons && !w.cons[c].identified
    ensures Settles(w, c, reply, AnswerLogin(w, c, reply).cons[c])
  {
    hide Lower, Admit, Displace, SettlesAs;
    assert OnAddress(w, w.cons[c].addr) == set d | d in w.cons && w.cons[d].identified && w.cons[d].addr == w.cons[c].addr;
    RefusalSettles(w.cons[c], reply);
    if reply.Answer? {
      var holder := Find(w, Lower(reply.name));
      if holder.Some? {
        FreeingLeavesOthers(w, holder.value, c);
        AdmitSettles(Displace(w, holder.value), c, reply);
      } else {
        AdmitSettles(w, c, reply);
      }
    }
  }

  /** A connection that still waits for its answer, and is open, gets exactly this. */
  lemma LoginSettles(w: World, c: ConId, reply: Reply)
    requires Inv(w) && c in w.cons && w.cons[c].pending && !w.cons[c].closed
    ensures c in Step(w, LoginReply(c, reply)).cons
    ensures Settles(w, c, reply, Step(w, LoginReply(c, reply)).cons[c])
  {
    hide Lower, AnswerLogin, Settles, UniqueNames, MembersLive, BansEnforced, CapKept;
    var waited := SetLogin(w, c, w.cons[c].(pending := false));
    AnswerSettles(waited, c, reply);
    AnswerLoginStandings(waited, c, reply, c);
    StillSettles(w, c, reply, Step(w, LoginReply(c, reply)).cons[c]);
  }

  lemma StillSettles(w: World, c: ConId, reply: Reply, now: Login)
    requires c in w.cons && Settles(SetLogin(w, c, w.cons[c].(pending := false)), c, reply, now)
    ensures Settles(w, c, reply, now)
  {
    var v := SetLogin(w, c, w.cons[c].(pending := false));
    assert (set d | d in v.cons && v.cons[d].identified && v.cons[d].addr == v.cons[c].addr)
        == (set d | d in w.cons && w.cons[d].identified && w.cons[d].addr == w.cons[c].addr);
  }

  /** What an answer does to another connection: it loses a name that the answer
      gives away, and is to close; or nothing. */
  lemma LoginDisplaces(w: World, c: ConId, reply: Reply, d: ConId)
    requires Inv(w) && c in w.cons && w.cons[c].pending && !w.cons[c].closed && d in w.cons && d != c
    ensures var v := Step(w, LoginReply(c, reply)); d in v.cons
    ensures var v := Step(w, LoginReply(c, reply));
            v.cons[d] == if Displaced(w, c, reply, d) then w.cons[d].(identified := false, delayClose := true) else w.cons[d]
  {
    hide Lower, Admit, Displace, UniqueNames, MembersLive, BansEnforced, CapKept;
    var waited := SetLogin(w, c, w.cons[c].(pending := false));
    assert OnAddress(waited, waited.cons[c].addr) == set d | d in w.cons && w.cons[d].identified && w.cons[d].addr == w.cons[c].addr;
    if reply.Answer? {
      var holder := Find(waited, Lower(reply.name));
      if holder.Some? {
        FreeingLeavesOthers(waited, holder.value, d);
        FreeingLeavesOthers(waited, holder.value, c);
        AdmitChangesOne(Displace(waited, holder.value), c, reply);
        OneHolder(w, holder.value, d, Lower(reply.name));
      } else {
        assert d in Named(waited, Lower(reply.name)) <==> w.cons[d].identified && w.cons[d].lower == Lower(reply.name);
        AdmitChangesOne(waited, c, reply);
      }
    }
  }

  lemma OneHolder(w: World, holder: ConId, d: ConId, lower: Name)
    requires Inv(w) && holder in w.cons && w.cons[holder].identified && w.cons[holder].lower == lower && d in w.cons
    ensures d == holder <==> w.cons[d].identified && w.cons[d].lower == lower
  {
  }

  /** A name changes hands before it is asked whether the character may have it. */
  ghost predicate Displaced(w: World, c: ConId, reply: Reply, d: ConId)
    requires c in w.cons && d in w.cons
  {
    && reply.Answer? && !reply.error
    && |set d | d in w.cons && w.cons[d].identified && w.cons[d].addr == w.cons[c].addr| as real < w.cap
    && w.cons[d].identified && w.cons[d].lower == Lower(reply.name)
  }

  lemma RolesAreGiven(w: World, e: Event, c: ConId, role: Role)
    requires Inv(w) && HasRole(Step(w, e), c, role) && !HasRole(w, c, role)
    ensures GivesRole(e, c, role)
  {
    hide Lower, AnswerLogin, Obey, Disconnect, Unused, GivesRole, Settles;
    match e
    case Perform(d, command) => if d in w.cons { ObeyKeepsLogins(w, d, command); }
    case LoginReply(d, reply) =>
      if d in w.cons && w.cons[d].pending {
        var waited := SetLogin(w, d, w.cons[d].(pending := false));
        AnswerLoginStandings(waited, d, reply, d);
        if !w.cons[d].closed {
          if c == d {
            LoginSettles(w, c, reply);
            assert GivesRole(e, c, role) by { SettledRole(w, c, reply, Step(w, e).cons[c], role); }
          } else if c in w.cons {
            LoginDisplaces(w, d, reply, c);
          }
        }
      }
    case Hangup(d) => if d in w.cons { DisconnectKeepsLogins(w, d); }
    case Timer(d, _) => if d in w.cons { DisconnectKeepsLogins(w, d); }
    case Handshake(d, _, _) => if d in w.cons { DisconnectKeepsLogins(w, d); }
    case Reassign(d, roles) => assert GivesRole(e, c, role) by { GivesReassigned(d, roles, c, role, w); }
    case _ =>
  }

  lemma SettledRole(w: World, c: ConId, reply: Reply, now: Login, role: Role)
    requires c in w.cons && Settles(w, c, reply, now) && role in now.roles && role !in w.cons[c].roles
    ensures GivesRole(LoginReply(c, reply), c, role)
  {
  }

  lemma GivesReassigned(d: ConId, roles: set<Role>, c: ConId, role: Role, w: World)
    requires HasRole(Step(w, Reassign(d, roles)), c, role) && !HasRole(w, c, role)
    ensures GivesRole(Reassign(d, roles), c, role)
  {
  }

  /** Over every run, a role that a connection has at the end and had not at the
      start was given to it by some event of the run. */
  lemma {:induction false} RolesAreGivenOnRun(w: World, events: seq<Event>, c: ConId, role: Role) returns (i: nat)
    requires Inv(w) && HasRole(Run(w, events), c, role) && !HasRole(w, c, role)
    ensures i < |events| && GivesRole(events[i], c, role)
    decreases |events|
  {
    hide Inv, Step, Run, HasRole, GivesRole;
    if events == [] {
      RunNothing(w);
    } else {
      var last := |events| - 1;
      var before := events[..last];
      assert events == before + [events[last]];
      RunOneMore(w, before, events[last]);
      if HasRole(Run(w, before), c, role) {
        i := RolesAreGivenOnRun(w, before, c, role);
      } else {
        i := last;
        RunKeeps(w, before);
        RolesAreGiven(Run(w, before), events[last], c, role);
      }
    }
  }

  // -------------------------------------------------------------------------
  // Rooms that come and go with their members

  /** Goes away with its last member. */
  predicate Temporary(room: Room) {
    (room.kind == Private && room.canDestroy) || (room.kind == PubPrivate && room.top < 5)
  }

  /** Nobody is left in it. */
  predicate Deserted(members: set<(ConId, Name)>, r: Name) {
    forall m :: m in members ==> m.1 != r
  }

  lemma DesertedMeans(w: World, r: Name)
    ensures MembersOf(w, r) == {} <==> Deserted(w.members, r)
  {
    if m :| m in w.members && m.1 == r {
      assert m.0 in MembersOf(w, r);
    }
  }

  /** The memberships of c are gone or those of others are; rooms that this leaves
      empty go too, if temporary. */
  ghost predicate RoomsAfter(w: World, v: World, r: Name, room: Room) {
    if Deserted(v.members, r) && Temporary(room) then r !in v.rooms else r in v.rooms && v.rooms[r] == room
  }

  lemma LeavingLaw(w: World, c: ConId, r: Name)
    requires r in w.rooms
    ensures var v := LeaveRoom(w, c, r);
            && v.cons == w.cons && v.now == w.now && v.cap == w.cap && v.next == w.next
            && v.members == w.members - {(c, r)}
            && v.rooms - {r} == w.rooms - {r} && RoomsAfter(w, v, r, w.rooms[r])
  {
    DesertedMeans(Depart(w, c, r), r);
  }

  lemma EnteringLaw(w: World, c: ConId, r: Name, privileged: bool)
    requires r in w.rooms
    ensures var v := EnterRoom(w, c, r, privileged);
            && v.cons == w.cons && v.now == w.now && v.cap == w.cap && v.next == w.next
            && v.members == w.members + {(c, r)}
            && v.rooms - {r} == w.rooms - {r} && r in v.rooms && TopAfter(w.rooms[r], v.members, r, v.rooms[r])
  {
  }

  /** Nothing but the highest number of members seen changes. */
  ghost predicate TopAfter(room: Room, members: set<(ConId, Name)>, r: Name, after: Room) {
    var count := |set m | m in members && m.1 == r :: m.0|;
    after == room.(top := if count > room.top then count else room.top)
  }

  // -------------------------------------------------------------------------
  // Joining

  ghost predicate MayJoin(w: World, c: ConId, r: Name)
    requires c in w.cons
  {
    var me := w.cons[c];
    && r in w.rooms && (c, r) !in w.members
    && (me.unlimited || |set m | m in w.members && m.0 == c :: m.1| < 75)
    && (|| Privileged(w.rooms[r], me)
        || (!Outlawed(w.rooms[r], me.lower, w.now) && (w.rooms[r].kind == Private ==> me.lower in w.rooms[r].invites)))
  }

  /** A join succeeds exactly for who may join: fewer than 75 channels, no ban, and
      an invitation if the channel is private, except for privileges. */
  lemma JoinLaw(w: World, e: Event, c: ConId)
    requires Acts(w, e, c) && e.command.JCH?
    ensures var v, r := Step(w, e), Lower(e.command.room);
            && v.cons == w.cons
            && v.members == (if MayJoin(w, c, r) then w.members + {(c, r)} else w.members)
            && v.rooms - {r} == w.rooms - {r}
            && (if MayJoin(w, c, r) then r in v.rooms && TopAfter(w.rooms[r], v.members, r, v.rooms[r]) else v.rooms == w.rooms)
  {
    hide Lower, EnterRoom;
    var r := Lower(e.command.room);
    if r in w.rooms {
      EnteringLaw(w, c, r, Privileged(w.rooms[r], w.cons[c]));
    }
  }

  lemma LeaveLaw(w: World, e: Event, c: ConId)
    requires Acts(w, e, c) && e.command.LCH?
    ensures var v, r := Step(w, e), Lower(e.command.room);
            && v.cons == w.cons && v.members == w.members - {(c, r)} && v.rooms - {r} == w.rooms - {r}
            && (if (c, r) in w.members && r in w.rooms then RoomsAfter(w, v, r, w.rooms[r]) else v.rooms == w.rooms)
    requires Inv(w)
  {
    hide Lower, LeaveRoom, UniqueNames, BansEnforced, CapKept, LoginsSane, RoomsNamed;
    var r := Lower(e.command.room);
    if r in w.rooms {
      LeavingLaw(w, c, r);
    }
  }

  /** A new private channel under an identifier that was tried and is free, with
      its creator as owner, only guest and only member. */
  lemma CreationLaw(w: World, e: Event, c: ConId)
    requires Inv(w) && Acts(w, e, c) && e.command.CCR?
    ensures var v := Step(w, e);
            && v.cons == w.cons
            && if forall id :: id in e.command.candidates ==> Lower(id) in w.rooms then v == w
               else exists id :: id in e.command.candidates && Lower(id) !in w.rooms && FoundedBy(w, v, c, id)
  {
    hide Lower, EnterRoom, UniqueNames, BansEnforced, CapKept, LoginsSane, RoomsNamed;
    var found := FirstUnused(w.rooms, e.command.candidates);
    if found.None? {
      AllAreUsed(w.rooms, e.command.candidates);
    } else {
      var id := found.value;
      var room := Room(id, Private, true, 0, w.cons[c].name, {}, {w.cons[c].lower}, map[]);
      var w1 := SetRoom(w, Lower(id), room);
      EnteringLaw(w1, c, Lower(id), false);
      var v := Step(w, e);
      assert v == EnterRoom(w1, c, Lower(id), false);
      OnlyMember(w, v, c, Lower(id));
      OtherRoomsStay(w1.rooms, v.rooms, Lower(id));
      assert w1.rooms == w.rooms[Lower(id) := room];
      assert FoundedBy(w, v, c, id);
    }
  }

  lemma OtherRoomsStay(before: map<Name, Room>, after: map<Name, Room>, r: Name)
    requires after - {r} == before - {r} && r in after
    ensures after == before[r := after[r]]
  {
    forall x | x != r
      ensures (x in after <==> x in before) && (x in after ==> after[x] == before[x])
    {
      assert x in after <==> x in after - {r};
      assert x in before <==> x in before - {r};
      if x in after {
        assert (after - {r})[x] == after[x] && (before - {r})[x] == before[x];
      }
    }
  }

  lemma OnlyMember(w: World, v: World, c: ConId, r: Name)
    requires MembersLive(w) && r !in w.rooms && v.members == w.members + {(c, r)}
    ensures |set m | m in v.members && m.1 == r :: m.0| == 1
  {
    assert (set m | m in v.members && m.1 == r :: m.0) == {c};
  }

  ghost predicate FoundedBy(w: World, v: World, c: ConId, id: Name)
    requires c in w.cons
  {
    && v.members == w.members + {(c, Lower(id))}
    && v.rooms == w.rooms[Lower(id) := Room(id, Private, true, 1, w.cons[c].name, {}, {w.cons[c].lower}, map[])]
  }

  lemma {:induction false} AllAreUsed(rooms: map<Name, Room>, candidates: seq<Name>)
    requires FirstUnused(rooms, candidates).None?
    ensures forall id :: id in candidates ==> Lower(id) in rooms
  {
    hide Lower;
    if candidates != [] {
      AllAreUsed(rooms, candidates[1..]);
    }
  }

  /** Only an admin makes a public channel, and only under a free name. */
  lemma PublicCreationLaw(w: World, e: Event, c: ConId)
    requires Acts(w, e, c) && e.command.CRC?
    ensures var v, r := Step(w, e), Lower(e.command.name);
            && v.cons == w.cons && v.members == w.members
            && v.rooms == if Admin in w.cons[c].roles && r !in w.rooms
                          then w.rooms[r := Room(e.command.name, Public, true, 0, "", {}, {}, map[])] else w.rooms
  {
    hide Lower;
  }

  // -------------------------------------------------------------------------
  // Kicks, bans, timeouts

  /** A room after its private guest list was told to forget a name. */
  function Disinvited(room: Room, lower: Name): Room {
    if room.kind == Private then room.(invites := room.invites - {lower}) else room
  }

  ghost predicate MayKick(w: World, c: ConId, r: Name, d: ConId)
    requires c in w.cons && d in w.cons
  {
    && r in w.rooms && (c, r) in w.members && (d, r) in w.members
    && HasRule(w.rooms[r], w.cons[c]) && !Shielded(w.rooms[r], w.cons[c], w.cons[d])
  }

  lemma RightsAgree(room: Room, me: Login, target: Login)
    ensures StaffOverride(room, me) == IsStaff(room, me)
    ensures (IsMod(room, me) || StaffOverride(room, me)) == HasRule(room, me)
    ensures Protected(room, target, StaffOverride(room, me)) == Shielded(room, me, target)
  {
  }

  /** Who bears the name is kicked exactly if the actor, on the channel too, rules
      there and the target is not shielded. */
  lemma KickLaw(w: World, e: Event, c: ConId, d: ConId)
    requires Inv(w) && Acts(w, e, c) && e.command.CKU?
    requires d in w.cons && w.cons[d].identified && w.cons[d].lower == Lower(e.command.target)
    ensures var v, r := Step(w, e), Lower(e.command.room);
            && v.cons == w.cons
            && v.members == (if MayKick(w, c, r, d) then w.members - {(d, r)} else w.members)
            && v.rooms - {r} == w.rooms - {r}
            && (if MayKick(w, c, r, d) then RoomsAfter(w, v, r, Disinvited(w.rooms[r], w.cons[d].lower)) else v.rooms == w.rooms)
  {
    hide Lower, LeaveRoom, MembersLive, BansEnforced, CapKept, LoginsSane, RoomsNamed, IsMod, StaffOverride, Protected,
         HasRule, Shielded;
    var r, lower := Lower(e.command.room), Lower(e.command.target);
    var holder := Find(w, lower);
    assert d in Named(w, lower);
    assert holder == Some(d);
    if r in w.rooms {
      RightsAgree(w.rooms[r], w.cons[c], w.cons[d]);
      var forgot := ForgetInvite(w, r, lower);
      LeavingLaw(forgot, d, r);
    }
  }

  /** Kicking a name that nobody bears does nothing. */
  lemma KickNobody(w: World, e: Event, c: ConId)
    requires Acts(w, e, c) && e.command.CKU?
    requires forall d :: d in w.cons && w.cons[d].identified ==> w.cons[d].lower != Lower(e.command.target)
    ensures Step(w, e) == w
  {
    hide Lower;
  }

  ghost predicate MayOutlaw(w: World, c: ConId, r: Name, lower: Name)
    requires c in w.cons
  {
    && r in w.rooms && HasRule(w.rooms[r], w.cons[c])
    && (IsStaff(w.rooms[r], w.cons[c]) || |set n | n in w.rooms[r].bans && Outlawed(w.rooms[r], n, w.now)| < 300)
    && (forall d :: d in w.cons && w.cons[d].identified && w.cons[d].lower == lower ==> !Shielded(w.rooms[r], w.cons[c], w.cons[d]))
  }

  /** The record that is written, and for how long. */
  function RecordBy(w: World, e: Event): BanRecord
    requires e.Perform? && e.c in w.cons && (e.command.CBU? || e.command.CTU?)
  {
    BanRecord(w.cons[e.c].name, w.now, if e.command.CBU? then 0 else w.now + 60 * e.command.minutes)
  }

  ghost predicate MayBan(w: World, e: Event, c: ConId, r: Name, lower: Name)
    requires c in w.cons && e.Perform? && (e.command.CBU? || e.command.CTU?)
  {
    && MayOutlaw(w, c, r, lower)
    && (e.command.CTU? ==> e.command.minutes >= 1 && (c, r) in w.members)
  }

  predicate Bears(w: World, d: ConId, lower: Name) {
    d in w.cons && w.cons[d].identified && w.cons[d].lower == lower
  }

  /** What a ban or timeout leaves: the record, for as long as it says, and nobody of
      that name on the channel; a name already under a record keeps it. */
  ghost predicate OutlawedBy(w: World, v: World, r: Name, lower: Name, record: BanRecord)
    requires r in w.rooms
  {
    var room := Disinvited(w.rooms[r], lower);
    if Outlawed(w.rooms[r], lower, w.now) then v.members == w.members && v.rooms == w.rooms[r := room]
    else
      var banned := room.(bans := room.bans[lower := record]);
      && v.members == (set m | m in w.members && !(m.1 == r && Bears(w, m.0, lower)))
      && (if v.members == w.members then r in v.rooms && v.rooms[r] == banned else RoomsAfter(w, v, r, banned))
  }

  /** Once the record is written, whoever bears the name leaves the channel. */
  lemma WrittenLaw(w: World, r: Name, lower: Name, record: BanRecord)
    requires Inv(w) && r in w.rooms && !Outlawed(w.rooms[r], lower, w.now)
    ensures var room, holder := Disinvited(w.rooms[r], lower), Find(w, lower);
            var banned := SetRoom(w, r, room.(bans := room.bans[lower := record]));
            var v := if holder.Some? && (holder.value, r) in w.members then LeaveRoom(banned, holder.value, r) else banned;
            v.cons == w.cons && v.rooms - {r} == w.rooms - {r} && OutlawedBy(w, v, r, lower, record)
  {
    hide LeaveRoom, Inv, Outlawed, Find, RoomsAfter;
    var room, holder := Disinvited(w.rooms[r], lower), Find(w, lower);
    var banned := SetRoom(w, r, room.(bans := room.bans[lower := record]));
    BearersAreHolder(w, lower);
    if holder.Some? {
      assert Bears(w, holder.value, lower);
      LeavingLaw(banned, holder.value, r);
      SameRoomsAfter(w, banned, r, room.(bans := room.bans[lower := record]));
      assert (set m | m in w.members && !(m.1 == r && Bears(w, m.0, lower))) == w.members - {(holder.value, r)};
    } else {
      assert (set m | m in w.members && !(m.1 == r && Bears(w, m.0, lower))) == w.members;
    }
  }

  lemma SameRoomsAfter(w: World, banned: World, r: Name, room: Room)
    ensures forall v: World :: RoomsAfter(banned, v, r, room) <==> RoomsAfter(w, v, r, room)
  {
  }

  lemma OutlawLaw(w: World, c: ConId, r: Name, lower: Name, record: BanRecord)
    requires Inv(w) && c in w.cons && r in w.rooms && HasRule(w.rooms[r], w.cons[c])
    ensures var v := Outlaw(w, c, r, lower, record);
            && v.cons == w.cons && v.rooms - {r} == w.rooms - {r}
            && if MayOutlaw(w, c, r, lower) then OutlawedBy(w, v, r, lower, record) else v == w
  {
    hide Lower, LeaveRoom, Inv, IsMod, StaffOverride, Protected, HasRule, IsStaff, Shielded, Find;
    var room, me, holder := w.rooms[r], w.cons[c], Find(w, lower);
    RightsAgree(room, me, me);
    assert ActiveBans(room, w.now) == set n | n in room.bans && Outlawed(room, n, w.now);
    BearersAreHolder(w, lower);
    var v := ForgetInvite(w, r, lower);
    assert v == SetRoom(w, r, Disinvited(room, lower)) by { assert w.rooms[r := room] == w.rooms; }
    assert forall d :: d in w.cons && w.cons[d].identified && w.cons[d].lower == lower ==> Bears(w, d, lower);
    if holder.Some? {
      assert Bears(w, holder.value, lower);
      RightsAgree(room, me, w.cons[holder.value]);
    }
    if MayOutlaw(w, c, r, lower) && !Outlawed(room, lower, w.now) {
      WrittenLaw(w, r, lower, record);
      assert SetRoom(v, r, v.rooms[r].(bans := v.rooms[r].bans[lower := record]))
          == SetRoom(w, r, Disinvited(room, lower).(bans := room.bans[lower := record]));
    }
  }

  lemma BearersAreHolder(w: World, lower: Name)
    requires Inv(w)
    ensures forall d: ConId :: Bears(w, d, lower) <==> Find(w, lower) == Some(d)
  {
    hide Lower, MembersLive, BansEnforced, CapKept, LoginsSane, RoomsNamed;
    forall d: ConId
      ensures Bears(w, d, lower) <==> d in Named(w, lower)
    {
    }
  }

  /** A ban or a timeout of some minutes is written exactly if the actor may. */
  lemma BanLaw(w: World, e: Event, c: ConId)
    requires Inv(w) && Acts(w, e, c) && (e.command.CBU? || e.command.CTU?)
    ensures var v, r, lower := Step(w, e), Lower(e.command.room), Lower(e.command.target);
            && v.cons == w.cons && v.rooms - {r} == w.rooms - {r}
            && if MayBan(w, e, c, r, lower) then OutlawedBy(w, v, r, lower, RecordBy(w, e)) else v == w
  {
    hide Lower, Outlaw, Inv, OutlawedBy, IsMod, StaffOverride, HasRule;
    var r, lower := Lower(e.command.room), Lower(e.command.target);
    if r in w.rooms {
      RightsAgree(w.rooms[r], w.cons[c], w.cons[c]);
      if HasRule(w.rooms[r], w.cons[c]) {
        OutlawLaw(w, c, r, lower, RecordBy(w, e));
      }
    }
  }

  /** A record in force is lifted exactly if the actor rules on the channel. */
  lemma UnbanLaw(w: World, e: Event, c: ConId)
    requires Acts(w, e, c) && e.command.CUB?
    ensures var v, r, lower := Step(w, e), Lower(e.command.room), Lower(e.command.target);
            && v.cons == w.cons && v.members == w.members
            && v.rooms == if r in w.rooms && HasRule(w.rooms[r], w.cons[c]) && Outlawed(w.rooms[r], lower, w.now)
                          then w.rooms[r := w.rooms[r].(bans := w.rooms[r].bans - {lower})] else w.rooms
  {
    hide Lower;
  }

  /** A channel is destroyed exactly by its owner or an admin; nobody stays in it. */
  lemma DestructionLaw(w: World, e: Event, c: ConId)
    requires Acts(w, e, c) && e.command.KIC?
    ensures var v, r := Step(w, e), Lower(e.command.room);
            && v.cons == w.cons
            && if r in w.rooms && (Owns(w.rooms[r], w.cons[c]) || Admin in w.cons[c].roles)
               then v.rooms == w.rooms - {r} && v.members == (set m | m in w.members && m.1 != r) else v == w
  {
    hide Lower;
  }

  /** A channel that is not public is opened and closed exactly by its owner, an
      admin or a global moderator. */
  lemma StatusLaw(w: World, e: Event, c: ConId)
    requires Acts(w, e, c) && e.command.RST?
    ensures var v, r := Step(w, e), Lower(e.command.room);
            && v.cons == w.cons && v.members == w.members
            && v.rooms == if r in w.rooms && Privileged(w.rooms[r], w.cons[c]) && w.rooms[r].kind != Public
                          then w.rooms[r := w.rooms[r].(kind := if e.command.open then PubPrivate else Private)]
                          else w.rooms
  {
    hide Lower;
  }

  // -------------------------------------------------------------------------
  // Closing

  /** A command without a name only closes; after the close, or before the upgrade,
      nothing happens at all. */
  lemma NamelessLaw(w: World, e: Event)
    requires e.Perform? && !Acts(w, e, e.c)
    ensures Step(w, e)
            == if e.c in w.cons && !w.cons[e.c].closed && w.cons[e.c].upgraded
               then w.(cons := w.cons[e.c := w.cons[e.c].(delayClose := true)]) else w
  {
  }

  /** What closes a connection at once: losing the peer, a bad handshake, and the
      timer when a close is pending or time is up. */
  predicate ClosesNow(w: World, e: Event, c: ConId)
    requires c in w.cons
  {
    && !w.cons[c].closed
    && (|| (e.Hangup? && e.c == c)
        || (e.Handshake? && e.c == c && !w.cons[c].upgraded && !e.good)
        || (e.Timer? && e.c == c && (w.cons[c].delayClose || e.expired)))
  }

  /** Its rooms and its seat in them are gone, its invitation to the staff room too. */
  ghost predicate Gone(w: World, v: World, c: ConId)
    requires c in w.cons
  {
    && v.members == (set m | m in w.members && m.0 != c)
    && (forall r :: r in v.rooms <==> r in w.rooms && !((c, r) in w.members && Temporary(w.rooms[r]) && Deserted(v.members, r)))
    && (forall r :: r in v.rooms ==>
          v.rooms[r] == if r == "adh-uberawesomestaffroom"
                        then w.rooms[r].(invites := w.rooms[r].invites - {Lower(w.cons[c].name)}) else w.rooms[r])
  }

  lemma DisconnectingLaw(w: World, c: ConId)
    requires c in w.cons
    ensures var v := Disconnect(w, c); Gone(w, v, c) && v.cons == w.cons && v.now == w.now
  {
    hide Lower;
    var v := Disconnect(w, c);
    forall r | r in w.rooms && (c, r) in w.members
      ensures MembersOf(w, r) == {c} <==> Deserted(v.members, r)
    {
      if MembersOf(w, r) == {c} {
        forall m | m in v.members
          ensures m.1 != r
        {
          assert m.1 == r ==> m.0 in MembersOf(w, r);
        }
      } else if Deserted(v.members, r) {
        forall d | d in MembersOf(w, r)
          ensures d == c
        {
          assert (d, r) in w.members;
        }
      }
    }
  }

  /** A connection becomes closed exactly by these events, and then it is nowhere. */
  lemma ClosingLaw(w: World, e: Event, c: ConId)
    requires Inv(w) && c in w.cons && ClosesNow(w, e, c)
    ensures var v := Step(w, e);
            && v.cons == w.cons[c := w.cons[c].(closed := true)]
            && if w.cons[c].identified then Gone(w, v, c) else v.members == w.members && v.rooms == w.rooms
  {
    hide Lower, Disconnect, Gone, UniqueNames, BansEnforced, CapKept, RoomsNamed;
    DisconnectingLaw(w, c);
    StillGone(w, Disconnect(w, c), Step(w, e), c);
  }

  lemma StillGone(w: World, v: World, u: World, c: ConId)
    requires c in w.cons
    ensures Gone(w, v, c) && u.members == v.members && u.rooms == v.rooms ==> Gone(w, u, c)
  {
  }

  lemma OnlyClosings(w: World, e: Event, c: ConId)
    requires Inv(w) && c in w.cons && c in Step(w, e).cons && !w.cons[c].closed && Step(w, e).cons[c].closed
    ensures ClosesNow(w, e, c)
  {
    hide Lower, AnswerLogin, Obey, Disconnect, Unused;
    match e
    case Perform(d, command) => if d in w.cons { ObeyKeepsLogins(w, d, command); }
    case LoginReply(d, reply) =>
      if d in w.cons && w.cons[d].pending && !w.cons[d].closed {
        if c == d {
          LoginSettles(w, c, reply);
        } else {
          LoginDisplaces(w, d, reply, c);
        }
      }
    case Hangup(d) => if d in w.cons { DisconnectKeepsLogins(w, d); }
    case Timer(d, _) => if d in w.cons { DisconnectKeepsLogins(w, d); }
    case Handshake(d, _, _) => if d in w.cons { DisconnectKeepsLogins(w, d); }
    case _ =>
  }

  /** A connection is forgotten exactly by the timer that finds it closed. */
  lemma ForgettingLaw(w: World, e: Event, c: ConId)
    requires Inv(w) && c in w.cons
    ensures c !in Step(w, e).cons <==> e.Timer? && e.c == c && w.cons[c].closed
  {
    hide Lower, AnswerLogin, Obey, Disconnect, Unused, UniqueNames, MembersLive, BansEnforced, CapKept, RoomsNamed;
    Standings(w, e, c);
  }

  /** One attempt at a login: a second one, or one without room in the relay, closes. */
  lemma AttemptLaw(w: World, c: ConId, accepted: bool)
    requires Inv(w) && c in w.cons && !w.cons[c].closed && w.cons[c].upgraded
    ensures Step(w, Ident(c, accepted))
            == w.(cons := w.cons[c := if w.cons[c].authStarted then w.cons[c].(delayClose := true)
                                     else if accepted then w.cons[c].(authStarted := true, pending := true)
                                     else w.cons[c].(authStarted := true, delayClose := true)])
  {
  }

  lemma UpgradeLaw(w: World, c: ConId, realAddr: Option<Addr>)
    requires c in w.cons && !w.cons[c].closed && !w.cons[c].upgraded
    ensures Step(w, Handshake(c, true, realAddr))
            == w.(cons := w.cons[c := w.cons[c].(upgraded := true,
                                                 addr := if realAddr == None then w.cons[c].addr else realAddr.value)])
  {
  }

  /** A connection that arrives has no name, no roles and no login under way, and is
      on no channel. */
  lemma ArrivalLaw(w: World, addr: Addr)
    requires Inv(w)
    ensures var v := Step(w, Accept(addr));
            && w.next !in w.cons && v.cons.Keys == w.cons.Keys + {w.next} && v.cons - {w.next} == w.cons
            && v.members == w.members && v.rooms == w.rooms && v.next > w.next
    ensures var me := Step(w, Accept(addr)).cons[w.next];
            && me.addr == addr && me.roles == {} && !me.identified && !me.upgraded && !me.authStarted && !me.pending
            && !me.delayClose && !me.closed
    ensures forall r :: (w.next, r) !in w.members
  {
    hide UniqueNames, BansEnforced, CapKept, LoginsSane, RoomsNamed;
    var v := Step(w, Accept(addr));
    assert v.cons - {w.next} == w.cons;
  }

  /** Once closed, a connection can do nothing: what still arrives for it changes at
      most whether a login waits and whether it closes once more. */
  lemma ClosedLaw(w: World, e: Event, c: ConId)
    requires Inv(w) && c in w.cons && w.cons[c].closed
    requires e.Handshake? || e.Ident? || e.LoginReply? || e.Perform? || e.Hangup? || e.Close?
    requires e.c == c
    ensures var v := Step(w, e);
            && v.rooms == w.rooms && v.members == w.members && v.cons.Keys == w.cons.Keys && v.cons - {c} == w.cons - {c}
            && v.cons[c] == w.cons[c].(pending := v.cons[c].pending, delayClose := v.cons[c].delayClose)
            && (v.cons[c].pending <==> w.cons[c].pending && !e.LoginReply?)
  {
    hide Lower, AnswerLogin, Obey, Disconnect;
  }

  lemma ObeyingTakesNoTime(w: World, c: ConId, command: Command)
    requires c in w.cons
    ensures Obey(w, c, command).now == w.now
  {
    hide Lower, LeaveRoom, Find, Banned, IsMod, StaffOverride, Protected, ActiveBans;
    match command
    case CBU(room, target) => OutlawingTakesNoTime(w, c, Lower(room), Lower(target), BanRecord(w.cons[c].name, w.now, 0));
    case CTU(room, target, minutes) =>
      OutlawingTakesNoTime(w, c, Lower(room), Lower(target), BanRecord(w.cons[c].name, w.now, w.now + minutes * 60));
    case _ => LeavingTakesNoTime();
  }

  lemma OutlawingTakesNoTime(w: World, c: ConId, r: Name, lower: Name, record: BanRecord)
    ensures c in w.cons && r in w.rooms ==> Outlaw(w, c, r, lower, record).now == w.now
  {
    hide LeaveRoom, Find, Banned, StaffOverride, Protected, ActiveBans;
    LeavingTakesNoTime();
  }

  lemma LeavingTakesNoTime()
    ensures forall w: World, c: ConId, r: Name :: r in w.rooms ==> LeaveRoom(w, c, r).now == w.now
  {
  }

  lemma AnsweringTakesNoTime(w: World, c: ConId, reply: Reply)
    requires c in w.cons
    ensures AnswerLogin(w, c, reply).now == w.now
  {
    hide Lower, LeftEmpty, Uninvite, Find, RolesOf, OnAddress, Banned;
  }

  /** Time never runs backwards, and only a tick moves it. */
  lemma TimeLaw(w: World, e: Event)
    ensures Step(w, e).now == if e.Tick? && e.time > w.now then e.time else w.now
  {
    hide Lower, Obey, AnswerLogin, LeftEmpty, Uninvite, Unused;
    match e
    case Perform(c, command) => if c in w.cons { ObeyingTakesNoTime(w, c, command); }
    case LoginReply(c, reply) => if c in w.cons { AnsweringTakesNoTime(SetLogin(w, c, w.cons[c].(pending := false)), c, reply); }
    case _ =>
  }

  /** Cleaning takes away exactly the empty open channels that nobody used lately. */
  lemma CleaningLaw(w: World, unused: set<Name>)
    ensures var v := Step(w, Idle(unused));
            && v.cons == w.cons && v.members == w.members
            && v.rooms == map r | r in w.rooms && !(r in unused && w.rooms[r].kind == PubPrivate && Deserted(w.members, r)) :: w.rooms[r]
  {
    forall r
      ensures MembersOf(w, r) == {} <==> Deserted(w.members, r)
    {
      DesertedMeans(w, r);
    }
  }

  // -------------------------------------------------------------------------
  // How memberships begin, on one event and over runs

  predicate StaffAnswer(reply: Reply) {
    reply.Answer? && (reply.staff || reply.operator || reply.superCop || reply.cop)
  }

  /** A login that succeeds altogether, of somebody on the staff. */
  ghost predicate JoinsStaff(w: World, c: ConId, reply: Reply)
    requires c in w.cons
  {
    Admitted(w, c, reply) && Complete(reply) && !TurnedAway(reply) && StaffAnswer(reply)
  }

  /** The one way into a room that c has at this event. */
  ghost predicate Admits(w: World, e: Event, c: ConId, r: Name) {
    || (Acts(w, e, c) && e.command.JCH? && Lower(e.command.room) == r && MayJoin(w, c, r))
    || (Acts(w, e, c) && e.command.CCR? && r !in w.rooms && exists id :: id in e.command.candidates && Lower(id) == r)
    || (e.LoginReply? && e.c == c && c in w.cons && r == "adh-uberawesomestaffroom" && r in w.rooms && JoinsStaff(w, c, e.reply))
  }

  lemma AdmissionJoins(w: World, c: ConId, reply: Reply)
    requires c in w.cons && reply.Answer?
    ensures var v := Admit(w, c, reply);
            if Complete(reply) && !TurnedAway(reply) && StaffAnswer(reply) && "adh-uberawesomestaffroom" in w.rooms
            then v.members == w.members + {(c, "adh-uberawesomestaffroom")} && "adh-uberawesomestaffroom" in v.rooms
                 && v.rooms["adh-uberawesomestaffroom"].invites == w.rooms["adh-uberawesomestaffroom"].invites + {Lower(reply.name)}
            else v.members == w.members && v.rooms == w.rooms
  {
    hide Lower, MembersOf;
  }

  lemma LoginJoins(w: World, c: ConId, reply: Reply, m: (ConId, Name))
    requires c in w.cons && m in AnswerLogin(w, c, reply).members && m !in w.members
    ensures m == (c, "adh-uberawesomestaffroom") && JoinsStaff(w, c, reply) && m.1 in w.rooms
  {
    hide Lower, MembersOf, LeftEmpty, Admit;
    assert OnAddress(w, w.cons[c].addr) == set d | d in w.cons && w.cons[d].identified && w.cons[d].addr == w.cons[c].addr;
    if reply.Answer? {
      var holder := Find(w, Lower(reply.name));
      var freed := if holder.Some? then Displace(w, holder.value) else w;
      assert freed.members <= w.members && freed.rooms.Keys <= w.rooms.Keys;
      AdmissionJoins(freed, c, reply);
    }
  }

  lemma StillJoins(w: World, c: ConId, reply: Reply)
    requires c in w.cons && JoinsStaff(SetLogin(w, c, w.cons[c].(pending := false)), c, reply)
    ensures JoinsStaff(w, c, reply)
  {
    var v := SetLogin(w, c, w.cons[c].(pending := false));
    assert (set d | d in v.cons && v.cons[d].identified && v.cons[d].addr == v.cons[c].addr)
        == (set d | d in w.cons && w.cons[d].identified && w.cons[d].addr == w.cons[c].addr);
  }

  /** Such a login does lead to the staff room, with an invitation, as long as the
      room stands. */
  lemma StaffJoinLaw(w: World, c: ConId, reply: Reply)
    requires Inv(w) && c in w.cons && w.cons[c].pending && !w.cons[c].closed && JoinsStaff(w, c, reply)
    requires "adh-uberawesomestaffroom" in w.rooms && !Temporary(w.rooms["adh-uberawesomestaffroom"])
    ensures var v := Step(w, LoginReply(c, reply));
            && (c, "adh-uberawesomestaffroom") in v.members && "adh-uberawesomestaffroom" in v.rooms
            && Lower(reply.name) in v.rooms["adh-uberawesomestaffroom"].invites
  {
    hide Lower, MembersOf, Admit, UniqueNames, MembersLive, BansEnforced, CapKept, RoomsNamed, LoginsSane;
    var waited := SetLogin(w, c, w.cons[c].(pending := false));
    assert OnAddress(waited, waited.cons[c].addr)
        == set d | d in w.cons && w.cons[d].identified && w.cons[d].addr == w.cons[c].addr;
    var holder := Find(waited, Lower(reply.name));
    var freed := if holder.Some? then Displace(waited, holder.value) else waited;
    assert "adh-uberawesomestaffroom" in freed.rooms;
    AdmissionJoins(freed, c, reply);
  }

  lemma CommandJoins(w: World, e: Event, c: ConId, m: (ConId, Name))
    requires Inv(w) && Acts(w, e, c) && m in Step(w, e).members && m !in w.members
    ensures m.0 == c && Admits(w, e, c, m.1)
  {
    hide Inv, Step, Lower, MayJoin, MayKick, MayBan, RoomsAfter, OutlawedBy, TopAfter;
    match e.command
    case JCH(_) => JoinLaw(w, e, c);
    case LCH(_) => LeaveLaw(w, e, c);
    case CCR(_) => CreationLaw(w, e, c);
    case CRC(_) => PublicCreationLaw(w, e, c);
    case CKU(_, target) => KickAdds(w, e, c);
    case CBU(_, _) => BanAdds(w, e, c);
    case CTU(_, _, _) => BanAdds(w, e, c);
    case CUB(_, _) => UnbanLaw(w, e, c);
    case KIC(_) => DestructionLaw(w, e, c);
    case RST(_, _) => StatusLaw(w, e, c);
  }

  lemma KickAdds(w: World, e: Event, c: ConId)
    requires Inv(w) && Acts(w, e, c) && e.command.CKU?
    ensures Step(w, e).members <= w.members
  {
    hide Inv, Step, Lower;
    if d :| d in w.cons && w.cons[d].identified && w.cons[d].lower == Lower(e.command.target) {
      KickLaw(w, e, c, d);
    } else {
      KickNobody(w, e, c);
    }
  }

  lemma BanAdds(w: World, e: Event, c: ConId)
    requires Inv(w) && Acts(w, e, c) && (e.command.CBU? || e.command.CTU?)
    ensures Step(w, e).members <= w.members
  {
    hide Inv, Step, Lower;
    BanLaw(w, e, c);
  }

  /** A membership begins only for who may join, for the creator of the channel, or
      by the staff-room auto-join. */
  lemma MembershipBegins(w: World, e: Event, c: ConId, r: Name)
    requires Inv(w) && (c, r) in Step(w, e).members && (c, r) !in w.members
    ensures Admits(w, e, c, r)
  {
    hide Lower, AnswerLogin, Obey, Disconnect, Unused, MayJoin, JoinsStaff, UniqueNames, MembersLive, BansEnforced, CapKept, RoomsNamed;
    match e
    case Perform(d, _) =>
      if Acts(w, e, d) {
        CommandJoins(w, e, d, (c, r));
      } else {
        NamelessLaw(w, e);
      }
    case LoginReply(d, reply) =>
      if d in w.cons && w.cons[d].pending && !w.cons[d].closed {
        LoginJoins(SetLogin(w, d, w.cons[d].(pending := false)), d, reply, (c, r));
        StillJoins(w, d, reply);
      }
    case Hangup(d) => if d in w.cons { DisconnectingLaw(w, d); }
    case Timer(d, _) => if d in w.cons { DisconnectingLaw(w, d); }
    case Handshake(d, _, _) => if d in w.cons { DisconnectingLaw(w, d); }
    case _ =>
  }

  /** c got into r at event i and has been there ever since. */
  ghost predicate AdmittedAt(w: World, events: seq<Event>, i: nat, c: ConId, r: Name) {
    && i < |events| && Admits(Run(w, events[..i]), events[i], c, r)
    && forall j :: i < j <= |events| ==> (c, r) in Run(w, events[..j]).members
  }

  /** Over every run: whoever is in a room at the end and was not at the start was
      let in at some event, so into a private room only with an invitation or a
      privilege, as its creator, or by the staff-room auto-join. */
  lemma {:induction false} MemberSince(w: World, events: seq<Event>, c: ConId, r: Name) returns (i: nat)
    requires Inv(w) && (c, r) in Run(w, events).members && (c, r) !in w.members
    ensures AdmittedAt(w, events, i, c, r)
    decreases |events|
  {
    hide Inv, Step, Admits, Run;
    if events == [] {
      RunNothing(w);
    } else {
      var last := |events| - 1;
      var before := events[..last];
      assert events == before + [events[last]];
      RunOneMore(w, before, events[last]);
      assert events[..|events|] == events;
      if (c, r) in Run(w, before).members {
        i := MemberSince(w, before, c, r);
        assert forall j :: 0 <= j <= last ==> before[..j] == events[..j];
        assert before[i] == events[i];
      } else {
        i := last;
        RunKeeps(w, before);
        MembershipBegins(Run(w, before), events[last], c, r);
      }
    }
  }

  // -------------------------------------------------------------------------
  // How memberships end, and how records change

  /** The one reason for which c leaves r at this event. */
  ghost predicate Removes(w: World, e: Event, c: ConId, r: Name)
    requires c in w.cons
  {
    || ClosesNow(w, e, c)
    || (e.LoginReply? && e.c in w.cons && e.c != c && Displaced(w, e.c, e.reply, c))
    || (Acts(w, e, c) && e.command.LCH? && Lower(e.command.room) == r)
    || (e.Perform? && Acts(w, e, e.c) && e.command.CKU? && Lower(e.command.room) == r
        && Bears(w, c, Lower(e.command.target)) && MayKick(w, e.c, r, c))
    || (e.Perform? && Acts(w, e, e.c) && (e.command.CBU? || e.command.CTU?) && Lower(e.command.room) == r
        && Bears(w, c, Lower(e.command.target)) && MayBan(w, e, e.c, r, Lower(e.command.target)))
    || (e.Perform? && Acts(w, e, e.c) && e.command.KIC? && Lower(e.command.room) == r && r in w.rooms
        && (Owns(w.rooms[r], w.cons[e.c]) || Admin in w.cons[e.c].roles))
  }

  lemma AdmissionLeaves(w: World, c: ConId, reply: Reply)
    requires c in w.cons && reply.Answer?
    ensures w.members <= Admit(w, c, reply).members
  {
    hide Lower, MembersOf;
  }

  lemma LoginLeaves(w: World, c: ConId, reply: Reply, m: (ConId, Name))
    requires c in w.cons && m in w.members && m !in AnswerLogin(w, c, reply).members
    ensures reply.Answer? && !reply.error && |OnAddress(w, w.cons[c].addr)| as real < w.cap
            && m.0 in Named(w, Lower(reply.name))
  {
    hide Lower, MembersOf, Admit, LeftEmpty, OnAddress;
    if reply.Answer? {
      var holder := Find(w, Lower(reply.name));
      var freed := if holder.Some? then Displace(w, holder.value) else w;
      if c in freed.cons {
        AdmissionLeaves(freed, c, reply);
      }
    }
  }

  lemma CommandLeaves(w: World, e: Event, d: ConId, c: ConId, r: Name)
    requires Inv(w) && Acts(w, e, d) && c in w.cons && (c, r) in w.members && (c, r) !in Step(w, e).members
    requires w.cons[c].identified
    ensures Removes(w, e, c, r)
  {
    hide Inv, Step, Lower, MayJoin, MayKick, MayBan, RoomsAfter, TopAfter, ClosesNow, Displaced, RecordBy;
    match e.command
    case JCH(_) => JoinLaw(w, e, d);
    case LCH(_) => LeaveLaw(w, e, d);
    case CCR(_) => CreationLaw(w, e, d);
    case CRC(_) => PublicCreationLaw(w, e, d);
    case CKU(_, target) =>
      if h :| h in w.cons && w.cons[h].identified && w.cons[h].lower == Lower(target) {
        KickLaw(w, e, d, h);
      } else {
        KickNobody(w, e, d);
      }
    case CBU(_, _) => BanLaw(w, e, d);
    case CTU(_, _, _) => BanLaw(w, e, d);
    case CUB(_, _) => UnbanLaw(w, e, d);
    case KIC(_) => DestructionLaw(w, e, d);
    case RST(_, _) => StatusLaw(w, e, d);
  }

  /** A membership ends only by leaving, by an allowed kick, ban, timeout or
      destruction of the channel, by a close, or by losing one's name to a login. */
  lemma MembershipEnds(w: World, e: Event, c: ConId, r: Name)
    requires Inv(w) && c in w.cons && (c, r) in w.members && (c, r) !in Step(w, e).members
    ensures Removes(w, e, c, r)
  {
    hide Lower, AnswerLogin, Obey, Disconnect, Unused, MayKick, MayBan, UniqueNames, BansEnforced, CapKept, RoomsNamed;
    assert w.cons[c].identified && w.cons[c].upgraded;
    match e
    case Perform(d, _) =>
      if Acts(w, e, d) {
        CommandLeaves(w, e, d, c, r);
      } else {
        NamelessLaw(w, e);
      }
    case LoginReply(d, reply) =>
      if d in w.cons && w.cons[d].pending && !w.cons[d].closed {
        var waited := SetLogin(w, d, w.cons[d].(pending := false));
        assert OnAddress(waited, waited.cons[d].addr)
            == set x | x in w.cons && w.cons[x].identified && w.cons[x].addr == w.cons[d].addr;
        LoginLeaves(waited, d, reply, (c, r));
      }
    case Hangup(d) => if d in w.cons { DisconnectingLaw(w, d); }
    case Timer(d, _) => if d in w.cons { DisconnectingLaw(w, d); }
    case Handshake(d, _, _) => if d in w.cons { DisconnectingLaw(w, d); }
    case _ =>
  }

  /** The records of a channel that stands change only at the hand of who rules there. */
  lemma RecordsChange(w: World, e: Event, r: Name)
    requires Inv(w) && r in w.rooms && r in Step(w, e).rooms && Step(w, e).rooms[r].bans != w.rooms[r].bans
    ensures && e.Perform? && Acts(w, e, e.c) && HasRule(w.rooms[r], w.cons[e.c])
            && (e.command.CBU? || e.command.CTU? || e.command.CUB?) && Lower(e.command.room) == r
  {
    hide Lower, AnswerLogin, Obey, Disconnect, Unused, MayJoin, MayKick, HasRule, UniqueNames, MembersLive, BansEnforced,
         CapKept, RoomsNamed, LoginsSane;
    match e
    case Perform(d, _) =>
      if Acts(w, e, d) {
        CommandRecords(w, e, d, r);
      } else {
        NamelessLaw(w, e);
      }
    case LoginReply(d, reply) =>
      if d in w.cons {
        LoginRecords(SetLogin(w, d, w.cons[d].(pending := false)), d, reply, r);
      }
    case Hangup(d) => if d in w.cons { DisconnectingLaw(w, d); }
    case Timer(d, _) => if d in w.cons { DisconnectingLaw(w, d); }
    case Handshake(d, _, _) => if d in w.cons { DisconnectingLaw(w, d); }
    case _ =>
  }

  lemma LoginRecords(w: World, c: ConId, reply: Reply, r: Name)
    requires c in w.cons && r in w.rooms && r in AnswerLogin(w, c, reply).rooms
    ensures AnswerLogin(w, c, reply).rooms[r].bans == w.rooms[r].bans
  {
    hide Lower, MembersOf, LeftEmpty, Admit;
    if reply.Answer? {
      var holder := Find(w, Lower(reply.name));
      var freed := if holder.Some? then Displace(w, holder.value) else w;
      AdmissionRecords(freed, c, reply, r);
    }
  }

  lemma AdmissionRecords(w: World, c: ConId, reply: Reply, r: Name)
    requires c in w.cons && reply.Answer?
    ensures var v := Admit(w, c, reply);
            v.rooms.Keys == w.rooms.Keys && (r in w.rooms ==> v.rooms[r].bans == w.rooms[r].bans)
  {
    hide Lower, MembersOf;
  }

  lemma CommandRecords(w: World, e: Event, c: ConId, r: Name)
    requires Inv(w) && Acts(w, e, c) && r in w.rooms && r in Step(w, e).rooms
    requires Step(w, e).rooms[r].bans != w.rooms[r].bans
    ensures HasRule(w.rooms[r], w.cons[c])
    ensures (e.command.CBU? || e.command.CTU? || e.command.CUB?) && Lower(e.command.room) == r
  {
    hide Inv, Step, Lower, MayJoin, MayKick, HasRule;
    var v := Step(w, e);
    match e.command
    case JCH(x) => JoinLaw(w, e, c); Untouched(w.rooms, v.rooms, Lower(x), r);
    case LCH(x) => LeaveLaw(w, e, c); Untouched(w.rooms, v.rooms, Lower(x), r);
    case CCR(_) => CreationLaw(w, e, c);
    case CRC(_) => PublicCreationLaw(w, e, c);
    case CKU(x, target) =>
      if h :| h in w.cons && w.cons[h].identified && w.cons[h].lower == Lower(target) {
        KickLaw(w, e, c, h);
        Untouched(w.rooms, v.rooms, Lower(x), r);
      } else {
        KickNobody(w, e, c);
      }
    case CBU(x, _) => BanLaw(w, e, c); Untouched(w.rooms, v.rooms, Lower(x), r);
    case CTU(x, _, _) => BanLaw(w, e, c); Untouched(w.rooms, v.rooms, Lower(x), r);
    case CUB(_, _) => UnbanLaw(w, e, c);
    case KIC(_) => DestructionLaw(w, e, c);
    case RST(_, _) => StatusLaw(w, e, c);
  }

  lemma Untouched(before: map<Name, Room>, after: map<Name, Room>, x: Name, r: Name)
    requires after - {x} == before - {x}
    ensures r != x ==> (r in after <==> r in before) && (r in after ==> after[r] == before[r])
  {
    assert r in after - {x} <==> r in after && r != x;
    assert r in before - {x} <==> r in before && r != x;
    if r != x && r in after {
      assert (after - {x})[r] == after[r] && (before - {x})[r] == before[r];
    }
  }
}
