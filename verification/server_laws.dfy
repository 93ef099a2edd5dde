/** What the laws of the registry say of a running server's own objects. */
module ServerLaws {
  import opened Options
  import opened RegistrySpec
  import opened RegistryRuns
  import opened RegistryLaws
  import opened Registry

  /** Whoever is on a channel got in at some event of the run, and so on a private
      channel with an invitation or a privilege, as its creator or by the staff
      auto-join, and has been there ever since. */
  lemma ParticipantWasAdmitted(server: ServerState, r: Name, con: ConnectionInstance)
    requires server.Valid() && server.Reached() && r in server.channelMap && con in server.channelMap[r].participants
    ensures exists i :: AdmittedAt(server.origin, server.trace, i, con.id, r)
  {
    hide ServerState.KeysValid, ServerState.NamesValid, ServerState.ListValid, ServerState.CountsValid,
         ServerState.StaffValid, Run, Inv, AdmittedAt;
    StartHolds(server.origin);
    assert server.Live(con) && (con.id, r) in server.members;
    assert server.Meaning().members == server.members;
    var i := MemberSince(server.origin, server.trace, con.id, r);
  }

  /** A role that a connection has was given by an answer to its own login that says
      so, or by a later grant. */
  lemma RoleWasGiven(server: ServerState, con: ConnectionInstance, role: Role)
    requires server.Valid() && server.Reached() && server.Live(con) && role in con.roles
    ensures exists i :: 0 <= i < |server.trace| && GivesRole(server.trace[i], con.id, role)
  {
    hide ServerState.KeysValid, ServerState.NamesValid, ServerState.ListValid, ServerState.CountsValid,
         ServerState.StaffValid, Run, Inv, GivesRole;
    StartHolds(server.origin);
    assert server.logins[con.id] == con.View();
    assert server.Meaning().cons == server.logins;
    var i := RolesAreGivenOnRun(server.origin, server.trace, con.id, role);
  }
}
