/** The login relay and the registry side by side: a login command that the gate
    lets through enters the relay, and the answer that the server takes out of it
    goes to the connection that asked. */
module LoginPath {
  import opened RegistrySpec
  import opened RegistryRuns
  import Relay

  datatype State = State(w: World, s: Relay.State)

  datatype Step =
    | Attempt(c: ConId, wellFormed: bool, locked: bool)
    | Take(reply: Reply)
    | Outside(e: Event)
    | Inside(r: Relay.Step)

  /** Whether the relay has a slot for this login. */
  predicate Admitted(s: Relay.State, wellFormed: bool, locked: bool) {
    wellFormed && locked && |s.logins.queue| < s.maxSlots
  }

  predicate AnswerComesOut(s: Relay.State) {
    s.replies.queue != [] && s.replies.queue[0].Login?
  }

  /** A login command arrives on an open connection; an answer comes out of the
      relay; anything else happens on one side only. */
  predicate Enabled(t: State, e: Step) {
    match e
    case Attempt(c, wellFormed, locked) =>
      && c in t.w.cons && !t.w.cons[c].closed && t.w.cons[c].upgraded
      && Relay.ServerEnabled(t.s, Relay.IdentCommand(c, wellFormed, locked))
    case Take(_) => Relay.ServerEnabled(t.s, Relay.ServerTakesReply) && AnswerComesOut(t.s)
    case Outside(e) => !e.Ident? && !e.LoginReply?
    case Inside(r) =>
      && Relay.Enabled(t.s, r)
      && !(r.Server? && r.s.IdentCommand?) && !(r == Relay.Server(Relay.ServerTakesReply) && AnswerComesOut(t.s))
  }

  ghost function Next(t: State, e: Step): State
    requires Enabled(t, e)
  {
    match e
    case Attempt(c, wellFormed, locked) =>
      State(RegistrySpec.Step(t.w, Ident(c, Admitted(t.s, wellFormed, locked))),
            Relay.ServerNext(t.s, Relay.IdentCommand(c, wellFormed, locked)))
    case Take(reply) =>
      State(RegistrySpec.Step(t.w, LoginReply(t.s.replies.queue[0].con, reply)),
            Relay.ServerNext(t.s, Relay.ServerTakesReply))
    case Outside(e) => State(RegistrySpec.Step(t.w, e), t.s)
    case Inside(r) => State(t.w, Relay.Next(t.s, r))
  }

  ghost predicate Possible(t: State, steps: seq<Step>)
    decreases |steps|
  {
    steps == [] || (Enabled(t, steps[0]) && Possible(Next(t, steps[0]), steps[1..]))
  }

  ghost function Run(t: State, steps: seq<Step>): State
    requires Possible(t, steps)
    decreases |steps|
  {
    if steps == [] then t else Run(Next(t, steps[0]), steps[1..])
  }

  predicate Outstanding(ledger: Relay.Ledger, c: ConId) {
    Relay.Login(c) in ledger.accepted && Relay.Login(c) !in ledger.answered
  }

  /** Both sides agree on whose login has begun, and a connection awaits an answer
      exactly while the relay owes it one. */
  ghost predicate Agrees(w: World, ledger: Relay.Ledger) {
    && (forall c :: c in w.cons ==> (w.cons[c].authStarted <==> c in ledger.authStarted))
    && (forall c :: c in w.cons ==> (w.cons[c].pending <==> Outstanding(ledger, c)))
    && (forall c :: c in ledger.authStarted ==> c < w.next)
  }

  ghost predicate Together(t: State) {
    Inv(t.w) && Relay.Inv(t.s) && Agrees(t.w, t.s.ledger)
  }

  /** A server that has just started, with its relay. */
  ghost predicate Begins(t: State) {
    Start(t.w) && exists maxSlots, loginUp, httpUp :: t.s == Relay.Start(maxSlots, loginUp, httpUp)
  }

  lemma BeginsTogether(t: State)
    requires Begins(t)
    ensures Together(t)
  {
    StartHolds(t.w);
    var maxSlots, loginUp, httpUp :| t.s == Relay.Start(maxSlots, loginUp, httpUp);
    Relay.StartHolds(maxSlots, loginUp, httpUp);
  }

  /** What the server takes out of the relay was accepted and not answered yet. */
  lemma ComesOutOnce(s: Relay.State)
    requires Relay.Inv(s) && AnswerComesOut(s)
    ensures Outstanding(s.ledger, s.replies.queue[0].con)
  {
    var work := s.replies.queue[0];
    assert Relay.Settled(s, work);
    assert Relay.InQueue(s.replies, work) >= 1;
  }

  lemma NamedHaveBegun(w: World, c: ConId)
    requires Inv(w) && c in w.cons
    ensures c < w.next && (w.cons[c].identified ==> w.cons[c].authStarted)
  {
  }

  lemma AttemptAgrees(t: State, c: ConId, wellFormed: bool, locked: bool)
    requires Together(t) && Enabled(t, Attempt(c, wellFormed, locked))
    ensures var v := Next(t, Attempt(c, wellFormed, locked)); Agrees(v.w, v.s.ledger)
  {
    hide Inv, Relay.Inv;
    NamedHaveBegun(t.w, c);
    AcceptedHaveBegun(t.s, c);
    AnsweredWereAccepted(t.s, Relay.Login(c));
  }

  lemma AnsweredWereAccepted(s: Relay.State, work: Relay.Work)
    requires Relay.Inv(s)
    ensures s.ledger.answered[work] <= s.ledger.accepted[work] <= 1
  {
    assert Relay.Settled(s, work);
  }

  lemma TakeAgrees(t: State, reply: Reply)
    requires Together(t) && Enabled(t, Take(reply))
    ensures var v := Next(t, Take(reply)); Agrees(v.w, v.s.ledger)
  {
    hide Inv, Relay.Inv, AnswerLogin;
    var c := t.s.replies.queue[0].con;
    ComesOutOnce(t.s);
    StepKeepsCap(t.w, LoginReply(c, reply));
    if c in t.w.cons {
      var w := SetLogin(t.w, c, t.w.cons[c].(pending := false));
      forall d | d in w.cons
        ensures var v := AnswerLogin(w, c, reply);
                && v.cons.Keys == w.cons.Keys
                && v.cons[d].authStarted == w.cons[d].authStarted && v.cons[d].pending == w.cons[d].pending
      {
        AnswerLoginStandings(w, c, reply, d);
      }
      AnswerLoginStandings(w, c, reply, c);
    }
  }

  lemma AcceptedHaveBegun(s: Relay.State, c: ConId)
    requires Relay.Inv(s)
    ensures Relay.Login(c) in s.ledger.accepted ==> c in s.ledger.authStarted
  {
  }

  lemma OutsideAgrees(t: State, e: Event)
    requires Together(t) && Enabled(t, Outside(e))
    ensures Agrees(RegistrySpec.Step(t.w, e), t.s.ledger)
  {
    hide Relay.Inv;
    var v := RegistrySpec.Step(t.w, e);
    forall d | d in v.cons
      ensures v.cons[d].authStarted <==> d in t.s.ledger.authStarted
      ensures v.cons[d].pending <==> Outstanding(t.s.ledger, d)
    {
      if d in t.w.cons {
        QuietStandings(t.w, e, d);
      } else {
        Newcomers(t.w, e, d);
        AcceptedHaveBegun(t.s, d);
        assert v.cons[d] == NewLogin(e.addr);
      }
    }
    StepKeepsCap(t.w, e);
  }

  lemma InsideAgrees(t: State, r: Relay.Step)
    requires Together(t) && Enabled(t, Inside(r))
    ensures Agrees(t.w, Relay.Next(t.s, r).ledger)
  {
    hide Inv, Relay.Conserved, Relay.AcceptedOnce, Relay.Bounded, Relay.Attended, Relay.StrandedOnly;
    assert forall c :: Outstanding(t.s.ledger, c) <==> Outstanding(Relay.Next(t.s, r).ledger, c) by {
      InsideAnswersNoLogin(t.s, r);
    }
  }

  /** Only an answer to a login settles a login. */
  lemma InsideAnswersNoLogin(s: Relay.State, r: Relay.Step)
    requires Relay.Routed(s) && Relay.Enabled(s, r)
    requires !(r.Server? && r.s.IdentCommand?) && !(r == Relay.Server(Relay.ServerTakesReply) && AnswerComesOut(s))
    ensures var v := Relay.Next(s, r).ledger;
            && v.authStarted == s.ledger.authStarted
            && forall c :: v.accepted[Relay.Login(c)] == s.ledger.accepted[Relay.Login(c)]
                           && v.answered[Relay.Login(c)] == s.ledger.answered[Relay.Login(c)]
  {
    assert s.replies.queue != [] ==> s.replies.queue[0] in s.replies.queue;
    assert s.pages.queue != [] ==> s.pages.queue[0] in s.pages.queue;
  }

  lemma StepTogether(t: State, e: Step)
    requires Together(t) && Enabled(t, e)
    ensures Together(Next(t, e))
  {
    hide Inv, Relay.Inv, Agrees, RegistrySpec.Step, Relay.ServerNext, Relay.LoginNext, Relay.HttpNext,
         Relay.ServerEnabled, Relay.LoginEnabled, Relay.HttpEnabled;
    match e
    case Attempt(c, wellFormed, locked) =>
      StepKeeps(t.w, Ident(c, Admitted(t.s, wellFormed, locked)));
      Relay.StepKeeps(t.s, Relay.Server(Relay.IdentCommand(c, wellFormed, locked)));
      AttemptAgrees(t, c, wellFormed, locked);
    case Take(reply) =>
      StepKeeps(t.w, LoginReply(t.s.replies.queue[0].con, reply));
      Relay.StepKeeps(t.s, Relay.Server(Relay.ServerTakesReply));
      TakeAgrees(t, reply);
    case Outside(e) =>
      StepKeeps(t.w, e);
      OutsideAgrees(t, e);
    case Inside(r) =>
      Relay.StepKeeps(t.s, r);
      InsideAgrees(t, r);
  }

  lemma {:induction false} RunTogether(t: State, steps: seq<Step>)
    requires Together(t) && Possible(t, steps)
    ensures Together(Run(t, steps))
    decreases |steps|
  {
    hide Together, Next, Enabled;
    if steps != [] {
      StepTogether(t, steps[0]);
      RunTogether(Next(t, steps[0]), steps[1..]);
    }
  }

  /** What the server does with an answer, asking nothing about the relay. */
  ghost function Deliver(w: World, c: ConId, reply: Reply): World {
    if c !in w.cons then w
    else
      var answered := SetLogin(w, c, w.cons[c].(pending := false));
      if w.cons[c].closed then answered else AnswerLogin(answered, c, reply)
  }

  /** Over every run, each answer finds a connection that is still waiting for its
      only one, or none any more; so looking whether it waits makes no difference. */
  lemma EveryAnswerIsAwaited(t: State, steps: seq<Step>, reply: Reply)
    requires Begins(t) && Possible(t, steps) && Enabled(Run(t, steps), Take(reply))
    ensures var v := Run(t, steps); var c := v.s.replies.queue[0].con;
            && (c in v.w.cons ==> v.w.cons[c].pending && v.w.cons[c].authStarted && !v.w.cons[c].identified)
            && Next(v, Take(reply)).w == Deliver(v.w, c, reply)
            && (c in v.w.cons ==> v.w.cons.Keys == Next(v, Take(reply)).w.cons.Keys && !Next(v, Take(reply)).w.cons[c].pending)
  {
    hide Possible, Run, AnswerLogin;
    BeginsTogether(t);
    RunTogether(t, steps);
    var v := Run(t, steps);
    var c := v.s.replies.queue[0].con;
    ComesOutOnce(v.s);
    if c in v.w.cons {
      AnswerLoginStandings(SetLogin(v.w, c, v.w.cons[c].(pending := false)), c, reply, c);
    }
  }
}
