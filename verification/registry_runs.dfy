/** What holds over every run of the registry, from an empty server on. */
module RegistryRuns {
  import opened Options
  import opened RegistrySpec

  lemma InviteAndEnterKeeps(w: World, c: ConId, lower: Name)
    requires Inv(w) && Registered(w, c) && !w.cons[c].closed && STAFF_ROOM in w.rooms
    ensures var room := w.rooms[STAFF_ROOM];
            Inv(EnterRoom(SetRoom(w, STAFF_ROOM, room.(invites := room.invites + {lower})), c, STAFF_ROOM, true))
  {
    var room := w.rooms[STAFF_ROOM];
    SetRoomKeeps(w, STAFF_ROOM, room.(invites := room.invites + {lower}));
    EnterRoomKeeps(SetRoom(w, STAFF_ROOM, room.(invites := room.invites + {lower})), c, STAFF_ROOM, true);
  }

  lemma RolesKeep(w: World, c: ConId, roles: set<Role>, unlimited: bool)
    requires Inv(w) && c in w.cons
    ensures Inv(SetLogin(w, c, w.cons[c].(roles := roles, unlimited := unlimited)))
  {
    SetLoginKeeps(w, c, w.cons[c].(roles := roles, unlimited := unlimited));
  }

  lemma DelayCloseKeeps(w: World, c: ConId)
    requires Inv(w) && c in w.cons
    ensures Inv(DelayClose(w, c))
  {
    SetLoginKeeps(w, c, w.cons[c].(delayClose := true));
  }

  lemma AdmitKeeps(w: World, c: ConId, reply: Reply)
    requires Inv(w) && c in w.cons && reply.Answer?
    requires !w.cons[c].identified && !w.cons[c].closed && w.cons[c].authStarted && w.cons[c].upgraded && !w.cons[c].pending
    requires Named(w, Lower(reply.name)) == {}
    requires (|OnAddress(w, w.cons[c].addr)| as real) < w.cap
    ensures Inv(Admit(w, c, reply))
  {
    IdentifyKeeps(w, c, reply.name);
    hide Inv, Lower, EnterRoom, RolesOf;
    var named := Identify(w, c, reply.name);
    DelayCloseKeeps(named, c);
    var login := named.cons[c];
    RolesKeep(named, c, login.roles + RolesOf(reply), login.unlimited || Lower(reply.name) == "adl");
    var ranked := Rank(named, c, reply);
    DelayCloseKeeps(ranked, c);
    RolesKeep(ranked, c, ranked.cons[c].roles + {SuperCop}, ranked.cons[c].unlimited);
    var promoted := Promote(ranked, c, reply);
    if STAFF_ROOM in w.rooms {
      InviteAndEnterKeeps(promoted, c, promoted.cons[c].lower);
    }
  }

  lemma AnswerLoginKeeps(w: World, c: ConId, reply: Reply)
    requires Inv(w) && c in w.cons
    requires !w.cons[c].identified && !w.cons[c].closed && w.cons[c].authStarted && w.cons[c].upgraded && !w.cons[c].pending
    ensures Inv(AnswerLogin(w, c, reply))
  {
    DelayCloseKeeps(w, c);
    if reply.Answer? && !reply.error && (|OnAddress(w, w.cons[c].addr)| as real) < w.cap {
      var holder := Find(w, Lower(reply.name));
      if holder.Some? {
        FreeName(w, holder.value, c, Lower(reply.name));
      }
      var freed := if holder.Some? then Displace(w, holder.value) else w;
      hide Inv, Displace, Admit;
      if reply.barred {
        DelayCloseKeeps(freed, c);
      } else {
        AdmitKeeps(freed, c, reply);
      }
    }
  }

  /** Displacing the holder of a name frees the name and only the name. */
  lemma FreeName(w: World, holder: ConId, c: ConId, lower: Name)
    requires Inv(w) && holder in Named(w, lower) && c in w.cons && c != holder
    ensures var freed := Displace(w, holder);
            && Inv(freed) && Named(freed, lower) == {} && c in freed.cons && freed.cons[c] == w.cons[c]
            && freed.cap == w.cap
            && |OnAddress(freed, w.cons[c].addr)| <= |OnAddress(w, w.cons[c].addr)|
  {
    DisplaceKeeps(w, holder);
    var freed := Displace(w, holder);
    assert forall d :: Registered(w, d) && w.cons[d].lower == lower ==> d == holder;
    assert Named(freed, lower) == {};
    SubsetSize(OnAddress(freed, w.cons[c].addr), OnAddress(w, w.cons[c].addr));
  }

  lemma AcceptKeeps(w: World, addr: Addr)
    requires Inv(w)
    ensures Inv(Step(w, Accept(addr)))
  {
    var v := Step(w, Accept(addr));
    assert forall a :: OnAddress(v, a) == OnAddress(w, a);
  }

  lemma SweepKeeps(w: World, unused: set<Name>)
    requires Inv(w)
    ensures Inv(Sweep(w, unused))
  {
    var v := Sweep(w, unused);
    forall m | m in w.members
      ensures m.1 in v.rooms
    {
      assert m.0 in MembersOf(w, m.1);
    }
    SameLogins(w, v);
  }

  lemma TickKeeps(w: World, time: int)
    requires Inv(w)
    ensures Inv(Step(w, Tick(time)))
  {
    SameLogins(w, Step(w, Tick(time)));
  }

  lemma AdministerKeeps(w: World, r: Name, owner: Name, moderators: set<Name>, invites: set<Name>)
    requires Inv(w) && r in w.rooms
    ensures Inv(SetRoom(w, r, w.rooms[r].(owner := owner, moderators := moderators, invites := invites)))
  {
    SetRoomKeeps(w, r, w.rooms[r].(owner := owner, moderators := moderators, invites := invites));
  }

  lemma ConnectionStepKeeps(w: World, e: Event)
    requires Inv(w) && (e.Handshake? || e.Ident? || e.LoginReply?)
    ensures Inv(Step(w, e))
  {
    match e
    case Handshake(c, good, realAddr) =>
      if c in w.cons && !w.cons[c].closed && !w.cons[c].upgraded {
        if good {
          SetLoginKeeps(w, c, w.cons[c].(upgraded := true, addr := if realAddr.Some? then realAddr.value else w.cons[c].addr));
        } else {
          ShutdownKeeps(w, c);
        }
      }
    case Ident(c, accepted) =>
      if c in w.cons && !w.cons[c].closed && w.cons[c].upgraded {
        SetLoginKeeps(w, c, w.cons[c].(authStarted := true, delayClose := true));
        if !w.cons[c].identified {
          SetLoginKeeps(w, c, w.cons[c].(authStarted := true, pending := true));
        }
      }
    case LoginReply(c, reply) =>
      if c in w.cons && w.cons[c].pending {
        SetLoginKeeps(w, c, w.cons[c].(pending := false));
        var answered := SetLogin(w, c, w.cons[c].(pending := false));
        if !w.cons[c].closed {
          AnswerLoginKeeps(answered, c, reply);
        }
      }
  }

  lemma StepKeeps(w: World, e: Event)
    requires Inv(w)
    ensures Inv(Step(w, e))
  {
    match e
    case Tick(time) => TickKeeps(w, time);
    case Accept(addr) => AcceptKeeps(w, addr);
    case Perform(c, command) =>
      if c in w.cons {
        DelayCloseKeeps(w, c);
        if w.cons[c].identified && !w.cons[c].closed {
          ObeyKeeps(w, c, command);
        }
      }
    case Hangup(c) => if c in w.cons { ShutdownKeeps(w, c); }
    case Close(c) => if c in w.cons { DelayCloseKeeps(w, c); }
    case Timer(c, expired) =>
      if c in w.cons {
        ShutdownKeeps(w, c);
        if w.cons[c].closed {
          TeardownKeeps(w, c);
        }
      }
    case Administer(r, owner, moderators, invites) =>
      if r in w.rooms { AdministerKeeps(w, r, owner, moderators, invites); }
    case Reassign(c, roles) => if c in w.cons { RolesKeep(w, c, roles, w.cons[c].unlimited); }
    case Idle(unused) => SweepKeeps(w, unused);
    case _ => ConnectionStepKeeps(w, e);
  }

  lemma {:induction false} RunKeeps(w: World, events: seq<Event>)
    requires Inv(w)
    ensures Inv(Run(w, events))
    decreases |events|
  {
    if events != [] {
      StepKeeps(w, events[0]);
      RunKeeps(Step(w, events[0]), events[1..]);
    }
  }

  /** A server that has just started: no connections; the rooms read from disk
      are empty, and each is stored under its lower-case name. */
  ghost predicate Start(w: World) {
    && w.cons == map[] && w.members == {} && w.exempt == {} && w.next == 0
    && RoomsNamed(w)
  }

  lemma StartHolds(w: World)
    requires Start(w)
    ensures Inv(w)
  {
  }

  /** The cap on connections of one address holds over every run. */
  lemma AddressCapHolds(w: World, events: seq<Event>, a: Addr, limit: nat)
    requires Start(w)
    ensures var v := Run(w, events); var count := |OnAddress(v, a)|;
            && (count == 0 || (count as real) < w.cap + 1.0)
            && (w.cap == limit as real ==> count <= limit)
  {
    StartHolds(w);
    RunKeeps(w, events);
    CapIsFixed(w, events);
  }

  lemma StepKeepsCap(w: World, e: Event)
    ensures Step(w, e).cap == w.cap && w.next <= Step(w, e).next
  {
    hide Lower, AnswerLogin, Obey, Disconnect;
    match e
    case Perform(c, command) => if c in w.cons { ObeyKeepsLogins(w, c, command); }
    case LoginReply(c, reply) =>
      if c in w.cons {
        AnswerLoginStandings(SetLogin(w, c, w.cons[c].(pending := false)), c, reply, c);
      }
    case Handshake(c, _, _) => if c in w.cons { DisconnectKeepsLogins(w, c); }
    case Hangup(c) => if c in w.cons { DisconnectKeepsLogins(w, c); }
    case Timer(c, _) => if c in w.cons { DisconnectKeepsLogins(w, c); }
    case _ =>
  }

  lemma {:induction false} CapIsFixed(w: World, events: seq<Event>)
    ensures Run(w, events).cap == w.cap
    decreases |events|
  {
    if events != [] {
      hide Step;
      StepKeepsCap(w, events[0]);
      CapIsFixed(Step(w, events[0]), events[1..]);
    }
  }

  /** A join of room r by c that no ban stops: as its owner, as admin or global
      moderator, or by the staff-room auto-join of a login. */
  ghost predicate PrivilegedJoin(w: World, e: Event, c: ConId, r: Name) {
    || (e.Perform? && e.c == c && e.command.JCH? && Lower(e.command.room) == r
        && r in w.rooms && c in w.cons && (IsOwner(w.rooms[r], w.cons[c]) || AdminOrGlobal(w.cons[c])))
    || (e.LoginReply? && e.c == c && r == STAFF_ROOM && StaffLogin(e.reply))
  }

  /** An exemption begins only with a privileged join. */
  lemma ExemptionIsEarned(w: World, e: Event, c: ConId, r: Name)
    requires (c, r) in Step(w, e).exempt && (c, r) !in w.exempt
    ensures PrivilegedJoin(w, e, c, r)
  {
    hide Lower, Obey, AnswerLogin, MembersOf;
    match e
    case Perform(d, command) => if d in w.cons { CommandExempts(w, d, command, c, r); }
    case LoginReply(d, reply) =>
      if d in w.cons {
        LoginExempts(SetLogin(w, d, w.cons[d].(pending := false)), d, reply, c, r);
      }
    case _ =>
  }

  lemma {:induction false} RunOneMore(w: World, events: seq<Event>, e: Event)
    ensures Run(w, events + [e]) == Step(Run(w, events), e)
    decreases |events|
  {
    hide Step;
    if events == [] {
      assert Run(Step(w, e), []) == Step(w, e) && ([] + [e])[1..] == [];
    } else {
      assert (events + [e])[0] == events[0] && (events + [e])[1..] == events[1..] + [e];
      RunOneMore(Step(w, events[0]), events[1..], e);
    }
  }

  /** c joined r with a privilege at event i and has been a member ever since. */
  ghost predicate JoinedPrivileged(w: World, events: seq<Event>, i: nat, c: ConId, r: Name) {
    && i < |events| && PrivilegedJoin(Run(w, events[..i]), events[i], c, r)
    && forall j :: i < j <= |events| ==> (c, r) in Run(w, events[..j]).members
  }

  lemma {:induction false} ExemptSince(w: World, events: seq<Event>, c: ConId, r: Name) returns (i: nat)
    requires Inv(w) && (c, r) in Run(w, events).exempt && (c, r) !in w.exempt
    ensures JoinedPrivileged(w, events, i, c, r)
    decreases |events|
  {
    hide Inv, Step, PrivilegedJoin, Run;
    if events == [] {
      assert Run(w, []) == w by { RunNothing(w); }
    } else {
      var last := |events| - 1;
      var before := events[..last];
      assert events == before + [events[last]];
      RunOneMore(w, before, events[last]);
      ExemptAreMembers(w, events);
      assert events[..|events|] == events;
      if (c, r) in Run(w, before).exempt {
        i := ExemptSince(w, before, c, r);
        assert forall j :: 0 <= j <= last ==> before[..j] == events[..j];
        assert before[i] == events[i];
      } else {
        i := last;
        ExemptionIsEarned(Run(w, before), events[last], c, r);
      }
    }
  }

  lemma RunNothing(w: World)
    ensures Run(w, []) == w
  {
  }

  lemma ExemptAreMembers(w: World, events: seq<Event>)
    requires Inv(w)
    ensures Run(w, events).exempt <= Run(w, events).members
  {
    RunKeeps(w, events);
  }

  /** Bans hold over every run: a member under an active ban or timeout once joined
      with a privilege, as owner, admin or global moderator or through the
      staff-room auto-join, and has not left the room since. */
  lemma BannedMembersJoinedPrivileged(w: World, events: seq<Event>, c: ConId, r: Name)
    requires Start(w)
    ensures var v := Run(w, events);
            (c, r) in v.members ==>
              && c in v.cons && r in v.rooms
              && (Banned(v.rooms[r], v.cons[c].lower, v.now) ==> exists i :: JoinedPrivileged(w, events, i, c, r))
  {
    hide Run;
    StartHolds(w);
    RunKeeps(w, events);
    var v := Run(w, events);
    if (c, r) in v.members && Banned(v.rooms[r], v.cons[c].lower, v.now) {
      var i := ExemptSince(w, events, c, r);
    }
  }

  lemma AdmitExempts(w: World, d: ConId, reply: Reply, m: (ConId, Name))
    requires d in w.cons && reply.Answer? && m in Admit(w, d, reply).exempt && m !in w.exempt
    ensures m == (d, STAFF_ROOM) && StaffLogin(reply)
  {
    hide Lower, Occupants, RolesOf;
  }

  lemma LoginExempts(w: World, d: ConId, reply: Reply, c: ConId, r: Name)
    requires d in w.cons && (c, r) in AnswerLogin(w, d, reply).exempt && (c, r) !in w.exempt
    ensures d == c && r == STAFF_ROOM && StaffLogin(reply)
  {
    hide Lower, Admit, Find, Uninvite, LeftEmpty;
    if reply.Answer? {
      var holder := Find(w, Lower(reply.name));
      var freed := if holder.Some? then Displace(w, holder.value) else w;
      if d in freed.cons && (c, r) in Admit(freed, d, reply).exempt && (c, r) !in freed.exempt {
        AdmitExempts(freed, d, reply, (c, r));
      }
    }
  }

  lemma CommandExempts(w: World, d: ConId, command: Command, c: ConId, r: Name)
    requires d in w.cons && (c, r) in Obey(w, d, command).exempt && (c, r) !in w.exempt
    ensures command.JCH? && Lower(command.room) == r && d == c && r in w.rooms
            && (IsOwner(w.rooms[r], w.cons[c]) || AdminOrGlobal(w.cons[c]))
  {
    hide Lower, Banned, MembersOf;
  }

  // -------------------------------------------------------------------------
  // Names

  lemma ObeyKeepsLogins(w: World, c: ConId, command: Command)
    requires c in w.cons
    ensures var v := Obey(w, c, command); v.cons == w.cons && v.next == w.next && v.cap == w.cap
  {
    hide Lower, Banned, MembersOf;
  }

  lemma DisconnectKeepsLogins(w: World, c: ConId)
    requires c in w.cons
    ensures var v := Disconnect(w, c); v.cons == w.cons && v.next == w.next && v.cap == w.cap
  {
  }

  /** Admission changes one login and no other. */
  lemma AdmitChangesOne(w: World, c: ConId, reply: Reply)
    requires c in w.cons && reply.Answer?
    ensures var v := Admit(w, c, reply);
            && v.cons.Keys == w.cons.Keys && v.next == w.next && v.cap == w.cap
            && (forall d :: d in w.cons && d != c ==> v.cons[d] == w.cons[d])
            && v.cons[c].authStarted == w.cons[c].authStarted && v.cons[c].pending == w.cons[c].pending
  {
    hide Lower, Occupants, RolesOf;
  }

  /** What a login keeps when something else happens: its name and its one chance. */
  predicate SameStanding(was: Login, now: Login) {
    was.identified == now.identified && was.lower == now.lower
    && was.authStarted == now.authStarted && was.pending == now.pending
  }

  lemma AnswerLoginStandings(w: World, c: ConId, reply: Reply, d: ConId)
    requires c in w.cons && d in w.cons
    ensures var v := AnswerLogin(w, c, reply);
            && v.next == w.next && v.cap == w.cap && v.cons.Keys == w.cons.Keys
            && v.cons[d].authStarted == w.cons[d].authStarted && v.cons[d].pending == w.cons[d].pending
            && (d != c && !SameStanding(w.cons[d], v.cons[d]) ==>
                  && reply.Answer? && w.cons[d].identified && Lower(reply.name) == w.cons[d].lower
                  && !v.cons[d].identified && v.cons[d].lower == w.cons[d].lower)
  {
    hide Lower, Admit, MembersOf;
    if reply.Answer? && !reply.error {
      var holder := Find(w, Lower(reply.name));
      if holder.Some? {
        DisconnectKeepsLogins(w, holder.value);
      }
      var freed := if holder.Some? then Displace(w, holder.value) else w;
      AdmitChangesOne(freed, c, reply);
    }
  }

  /** Most events leave every standing alone. */
  lemma QuietStandings(w: World, e: Event, d: ConId)
    requires d in w.cons && IdsUsed(w) && !e.Ident? && !e.LoginReply?
    ensures var v := Step(w, e);
            && (d !in v.cons ==> e.Timer? && e.c == d && w.cons[d].closed)
            && (d in v.cons ==> SameStanding(w.cons[d], v.cons[d]))
  {
    hide Lower, Obey, Disconnect, AnswerLogin, Unused;
    match e
    case Perform(c, command) => if c in w.cons { ObeyKeepsLogins(w, c, command); }
    case Handshake(c, _, _) => if c in w.cons { DisconnectKeepsLogins(w, c); }
    case Hangup(c) => if c in w.cons { DisconnectKeepsLogins(w, c); }
    case Timer(c, _) => if c in w.cons { DisconnectKeepsLogins(w, c); }
    case _ =>
  }

  /** Which events touch a login's standing, and how. */
  lemma Standings(w: World, e: Event, d: ConId)
    requires Inv(w) && d in w.cons
    ensures var v := Step(w, e);
            && (d !in v.cons ==> e.Timer? && e.c == d && w.cons[d].closed)
            && (d in v.cons && !SameStanding(w.cons[d], v.cons[d]) ==>
                  || (e.Ident? && e.c == d && v.cons[d].authStarted
                      && v.cons[d].identified == w.cons[d].identified && v.cons[d].lower == w.cons[d].lower
                      && (v.cons[d].pending ==> !w.cons[d].authStarted || w.cons[d].pending))
                  || (e.LoginReply? && e.c == d && w.cons[d].pending
                      && v.cons[d].authStarted == w.cons[d].authStarted && !v.cons[d].pending)
                  || (e.LoginReply? && e.c != d && e.reply.Answer? && Lower(e.reply.name) == w.cons[d].lower
                      && w.cons[d].identified && !v.cons[d].identified && v.cons[d].lower == w.cons[d].lower
                      && v.cons[d].authStarted == w.cons[d].authStarted && v.cons[d].pending == w.cons[d].pending))
  {
    hide Lower, AnswerLogin, Obey, Disconnect, Unused;
    if e.LoginReply? {
      if e.c in w.cons && w.cons[e.c].pending {
        AnswerLoginStandings(SetLogin(w, e.c, w.cons[e.c].(pending := false)), e.c, e.reply, d);
      }
    } else if !e.Ident? {
      QuietStandings(w, e, d);
    }
  }

  /** A name is lost only when its own closed connection is torn down, or to
      another connection that logs in under it. */
  lemma NameIsLostOnlyBy(w: World, e: Event, d: ConId)
    requires Inv(w) && Registered(w, d) && !Registered(Step(w, e), d)
    ensures || (e.Timer? && e.c == d && w.cons[d].closed)
            || (e.LoginReply? && e.c != d && e.reply.Answer? && Lower(e.reply.name) == w.cons[d].lower)
  {
    hide Step;
    Standings(w, e, d);
  }

  /** Event i takes the name of d: the teardown of d itself, closed before, or a
      login of another connection under the same name. */
  ghost predicate LosesName(w: World, events: seq<Event>, i: nat, d: ConId) {
    && i < |events|
    && var v, e := Run(w, events[..i]), events[i];
       && Registered(v, d) && !Registered(Step(v, e), d)
       && (|| (e.Timer? && e.c == d && v.cons[d].closed)
           || (e.LoginReply? && e.c != d && e.reply.Answer? && Lower(e.reply.name) == v.cons[d].lower))
  }

  /** Over any run a registered connection stays registered until its own teardown
      or the login of another under its name. */
  lemma {:induction false} NameIsLostOnceTaken(w: World, events: seq<Event>, d: ConId) returns (i: nat)
    requires Inv(w) && Registered(w, d) && !Registered(Run(w, events), d)
    ensures LosesName(w, events, i, d)
    decreases |events|
  {
    hide Inv, Step, Run, Registered;
    if events == [] {
      RunNothing(w);
    } else {
      var last := |events| - 1;
      var before := events[..last];
      assert events == before + [events[last]];
      RunOneMore(w, before, events[last]);
      if Registered(Run(w, before), d) {
        i := last;
        RunKeeps(w, before);
        NameIsLostOnlyBy(Run(w, before), events[last], d);
      } else {
        i := NameIsLostOnceTaken(w, before, d);
        assert before[..i] == events[..i] && before[i] == events[i];
      }
    }
  }

  predicate TakesName(e: Event, d: ConId, lower: Name) {
    (e.Timer? && e.c == d) || (e.LoginReply? && e.reply.Answer? && Lower(e.reply.name) == lower)
  }

  /** Over any run, no event of any other connection, such as the late teardown of
      a displaced login, takes the name away from its holder. */
  lemma {:induction false} HolderKeepsName(w: World, events: seq<Event>, d: ConId)
    requires Inv(w) && Registered(w, d)
    requires forall e :: e in events ==> !TakesName(e, d, w.cons[d].lower)
    ensures var v := Run(w, events);
            Registered(v, d) && Named(v, w.cons[d].lower) == {d}
    decreases |events|
  {
    hide Step;
    var lower := w.cons[d].lower;
    if events == [] {
      assert d in Named(w, lower);
    } else {
      assert events[0] in events;
      Standings(w, events[0], d);
      StepKeeps(w, events[0]);
      HolderKeepsName(Step(w, events[0]), events[1..], d);
    }
  }

  /** A connection that has had its login answered and holds no name. */
  predicate Spent(w: World, c: ConId) {
    c < w.next && (c in w.cons ==> w.cons[c].authStarted && !w.cons[c].pending && !w.cons[c].identified)
  }

  /** New connections get new identities. */
  lemma Newcomers(w: World, e: Event, d: ConId)
    requires d !in w.cons && d in Step(w, e).cons
    ensures e.Accept? && d == w.next
  {
    hide Lower, AnswerLogin, Obey, Disconnect;
    match e
    case Perform(c, command) => if c in w.cons { ObeyKeepsLogins(w, c, command); }
    case LoginReply(c, reply) =>
      if c in w.cons && w.cons[c].pending {
        AnswerLoginStandings(SetLogin(w, c, w.cons[c].(pending := false)), c, reply, c);
      }
    case Handshake(c, _, _) => if c in w.cons { DisconnectKeepsLogins(w, c); }
    case Hangup(c) => if c in w.cons { DisconnectKeepsLogins(w, c); }
    case Timer(c, _) => if c in w.cons { DisconnectKeepsLogins(w, c); }
    case _ =>
  }

  lemma SpentStep(w: World, e: Event, c: ConId)
    requires Inv(w) && Spent(w, c)
    ensures Spent(Step(w, e), c)
  {
    hide Step;
    StepKeepsCap(w, e);
    if c in w.cons {
      Standings(w, e, c);
    } else if c in Step(w, e).cons {
      Newcomers(w, e, c);
    }
  }

  /** One login per connection: once answered and nameless, nameless for ever. */
  lemma {:induction false} SpentForever(w: World, events: seq<Event>, c: ConId)
    requires Inv(w) && Spent(w, c)
    ensures !Registered(Run(w, events), c) && RoomsOf(Run(w, events), c) == {}
    decreases |events|
  {
    hide Step;
    if events != [] {
      SpentStep(w, events[0], c);
      StepKeeps(w, events[0]);
      SpentForever(Step(w, events[0]), events[1..], c);
    }
  }
}
