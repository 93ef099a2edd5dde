/** What the relay does with each request: when one is accepted, through which
    stages it passes, and when it may be dropped. */
module RelayLaws {
  import opened Relay

  // -------------------------------------------------------------------------
  // Accepting

  /** A login is accepted exactly at its connection's first attempt, if that is well
      formed and the queue can be locked and has a slot; the attempt is used up in
      any case. A page is accepted exactly if the queue can be locked. */
  lemma AcceptedExactlyWhen(s: State, e: Step)
    requires Enabled(s, e)
    ensures var was, now := s.ledger, Next(s, e).ledger;
            match e
            case Server(IdentCommand(con, wellFormed, locked)) =>
              && now.authStarted == was.authStarted + {con}
              && now.accepted == if con !in was.authStarted && wellFormed && locked && |s.logins.queue| < s.maxSlots
                                 then was.accepted + multiset{Login(con)} else was.accepted
            case Server(PageRequest(locked)) =>
              && now.authStarted == was.authStarted
              && now.accepted == if locked then was.accepted + multiset{Page(was.pages)} else was.accepted
            case _ => now.authStarted == was.authStarted && now.accepted == was.accepted
  {
  }

  // -------------------------------------------------------------------------
  // Dropping

  /** The queue to the HTTP thread could not be locked, or the transfer did not start. */
  predicate Fails(e: Step) {
    e == LoginServer(LoginForwards(false)) || e == Http(HttpBegins(false))
  }

  lemma DroppedExactlyWhen(s: State, e: Step)
    requires Enabled(s, e)
    ensures |Next(s, e).ledger.dropped| == |s.ledger.dropped| + if Fails(e) then 1 else 0
    ensures s.ledger.dropped <= Next(s, e).ledger.dropped
  {
  }

  ghost function Failures(steps: seq<Step>): nat {
    if steps == [] then 0 else (if Fails(steps[0]) then 1 else 0) + Failures(steps[1..])
  }

  /** Over every run, as many requests are dropped as failures happen. */
  lemma {:induction false} DroppedByFailures(s: State, steps: seq<Step>)
    requires Possible(s, steps)
    ensures |Run(s, steps).ledger.dropped| == |s.ledger.dropped| + Failures(steps)
    decreases |steps|
  {
    hide Next, Enabled, Fails;
    if steps != [] {
      DroppedExactlyWhen(s, steps[0]);
      DroppedByFailures(Next(s, steps[0]), steps[1..]);
    }
  }

  /** Without failures, and with the loops up from the start, every accepted request
      has been answered once the relay is at rest. */
  lemma AllAnsweredWithoutFailures(maxSlots: nat, steps: seq<Step>, work: Work)
    requires Possible(Start(maxSlots, true, true), steps) && Failures(steps) == 0
    requires AtRest(Run(Start(maxSlots, true, true), steps))
    ensures var ledger := Run(Start(maxSlots, true, true), steps).ledger;
            && ledger.dropped == multiset{}
            && ledger.answered[work] == if work in ledger.accepted then 1 else 0
  {
    DroppedByFailures(Start(maxSlots, true, true), steps);
    AtRestAllIsDone(maxSlots, steps, work);
  }

  // -------------------------------------------------------------------------
  // Passing through

  /** How often a request is at a stage: 1 the login queue, 2 the login thread, 3 the
      HTTP queue, 4 the HTTP thread, 5 in flight, 6 a reply queue, 7 settled. */
  function At(s: State, work: Work, stage: nat): nat {
    match stage
    case 1 => multiset(s.logins.queue)[work]
    case 2 => if s.login.at == LoginHolding(work) then 1 else 0
    case 3 => multiset(s.requests.queue)[work]
    case 4 => if s.http.at == HttpHolding(work) then 1 else 0
    case 5 => s.http.flight[work]
    case 6 => multiset(s.replies.queue)[work] + multiset(s.pages.queue)[work]
    case 7 => s.ledger.answered[work] + s.ledger.dropped[work]
    case _ => 0
  }

  /** One more of it at the new stage, one less at the old one. */
  predicate Shifts(s: State, v: State, work: Work, from: nat, to: nat, stage: nat) {
    At(v, work, stage) == At(s, work, stage) + (if stage == to then 1 else 0) - (if stage == from then 1 else 0)
  }

  /** A request goes on from one stage to another; from 0 to 0 it stays where it is. */
  predicate Goes(s: State, v: State, work: Work, from: nat, to: nat) {
    && Shifts(s, v, work, from, to, 1) && Shifts(s, v, work, from, to, 2) && Shifts(s, v, work, from, to, 3)
    && Shifts(s, v, work, from, to, 4) && Shifts(s, v, work, from, to, 5) && Shifts(s, v, work, from, to, 6)
    && Shifts(s, v, work, from, to, 7)
  }

  lemma Appended(queue: seq<Work>, pushed: Work, work: Work)
    ensures multiset(queue + [pushed])[work] == multiset(queue)[work] + if pushed == work then 1 else 0
  {
  }

  lemma Split(queue: seq<Work>, work: Work)
    requires queue != []
    ensures multiset(queue)[work] == multiset(queue[1..])[work] + if queue[0] == work then 1 else 0
  {
    assert queue == [queue[0]] + queue[1..];
  }

  /** Which request a step moves, and from where to where; 0 is outside. */
  function Moved(s: State, e: Step): (m: (Work, nat, nat))
    requires Enabled(s, e)
  {
    var nothing := (Page(0), 0, 0);
    match e
    case Server(IdentCommand(con, wellFormed, locked)) =>
      if con !in s.ledger.authStarted && wellFormed && locked && |s.logins.queue| < s.maxSlots then (Login(con), 0, 1) else nothing
    case Server(PageRequest(locked)) => if locked then (Page(s.ledger.pages), 0, 3) else nothing
    case LoginServer(LoginTakes) => if s.logins.queue != [] then (s.logins.queue[0], 1, 2) else nothing
    case LoginServer(LoginForwards(locked)) => (s.login.at.work, 2, if locked then 3 else 7)
    case Http(HttpTakes) => if s.requests.queue != [] then (s.requests.queue[0], 3, 4) else nothing
    case Http(HttpBegins(ok)) => (s.http.at.work, 4, if ok then 5 else 7)
    case Http(HttpCompletes(work)) => (work, 5, 6)
    case Server(ServerTakesReply) => if s.replies.queue != [] then (s.replies.queue[0], 6, 7) else nothing
    case Server(ServerTakesPage) => if s.pages.queue != [] then (s.pages.queue[0], 6, 7) else nothing
    case _ => nothing
  }

  /** What a step moves is at its new stage and no longer at the old one; all else stays. */
  predicate MovesOnly(s: State, v: State, moved: (Work, nat, nat), work: Work) {
    if moved.2 > 0 && work == moved.0 then Goes(s, v, work, moved.1, moved.2) else Goes(s, v, work, 0, 0)
  }

  lemma NothingMoves(s: State, v: State, work: Work)
    requires s.logins.queue == v.logins.queue && s.requests.queue == v.requests.queue
    requires s.replies.queue == v.replies.queue && s.pages.queue == v.pages.queue
    requires s.login.at == v.login.at && s.http.at == v.http.at && s.http.flight == v.http.flight
    requires s.ledger == v.ledger
    ensures Goes(s, v, work, 0, 0)
  {
  }

  lemma AcceptsLogin(s: State, con: ConId, work: Work)
    ensures MovesOnly(s, s.(ledger := AcceptLogin(s.ledger, con), logins := Push(s.logins, Login(con)),
                            server := ServerThread(Idle, OwesLoginThread)), (Login(con), 0, 1), work)
  {
    hide AcceptLogin;
    Appended(s.logins.queue, Login(con), work);
    LedgerCounts(s.ledger, Login(con), con, work);
  }

  lemma AcceptsPage(s: State, work: Work)
    ensures MovesOnly(s, s.(ledger := AcceptPage(s.ledger), requests := Push(s.requests, Page(s.ledger.pages)),
                            server := ServerThread(s.server.at, OwesHttpThread)), (Page(s.ledger.pages), 0, 3), work)
  {
    hide AcceptPage;
    Appended(s.requests.queue, Page(s.ledger.pages), work);
    LedgerCounts(s.ledger, Page(s.ledger.pages), 0, work);
  }

  lemma BeginMovesNothing(s: State, con: ConId, work: Work)
    ensures Goes(s, s.(ledger := Begin(s.ledger, con)), work, 0, 0) && Goes(s, s, work, 0, 0)
  {
  }

  lemma AcceptingMoves(s: State, e: ServerStep, work: Work)
    requires ServerEnabled(s, e) && (e.IdentCommand? || e.PageRequest?)
    ensures MovesOnly(s, ServerNext(s, e), Moved(s, Server(e)), work)
  {
    hide Goes, AcceptLogin, AcceptPage, Begin, Push;
    if e.IdentCommand? {
      AcceptsLogin(s, e.con, work);
      BeginMovesNothing(s, e.con, work);
    } else {
      AcceptsPage(s, work);
      BeginMovesNothing(s, 0, work);
    }
  }

  lemma TakesReply(s: State, work: Work)
    requires s.replies.queue != []
    ensures var head := s.replies.queue[0];
            MovesOnly(s, s.(replies := Pop(s.replies), ledger := Answer(s.ledger, head)), (head, 6, 7), work)
  {
    hide Answer;
    Split(s.replies.queue, work);
    LedgerCounts(s.ledger, s.replies.queue[0], 0, work);
  }

  lemma TakesPage(s: State, work: Work)
    requires s.pages.queue != []
    ensures var head := s.pages.queue[0];
            MovesOnly(s, s.(pages := Pop(s.pages), ledger := Answer(s.ledger, head)), (head, 6, 7), work)
  {
    hide Answer;
    Split(s.pages.queue, work);
    LedgerCounts(s.ledger, s.pages.queue[0], 0, work);
  }

  lemma TakingMoves(s: State, e: ServerStep, work: Work)
    requires ServerEnabled(s, e) && (e.ServerTakesReply? || e.ServerTakesPage?)
    ensures MovesOnly(s, ServerNext(s, e), Moved(s, Server(e)), work)
  {
    hide Goes, Answer, Pop;
    if e.ServerTakesReply? && s.replies.queue != [] {
      TakesReply(s, work);
    } else if e.ServerTakesPage? && s.pages.queue != [] {
      TakesPage(s, work);
    } else {
      NothingMoves(s, ServerNext(s, e), work);
    }
  }

  lemma ServerMoves(s: State, e: ServerStep, work: Work)
    requires ServerEnabled(s, e)
    ensures MovesOnly(s, ServerNext(s, e), Moved(s, Server(e)), work)
  {
    hide Goes, Answer, AcceptLogin, AcceptPage, Begin, Push, Pop;
    if e.IdentCommand? || e.PageRequest? {
      AcceptingMoves(s, e, work);
    } else if e.ServerTakesReply? || e.ServerTakesPage? {
      TakingMoves(s, e, work);
    } else {
      NothingMoves(s, ServerNext(s, e), work);
    }
  }

  lemma Forwards(s: State, work: Work)
    requires s.login.at.LoginHolding?
    ensures var moved := s.login.at.work;
            && MovesOnly(s, s.(login := LoginThread(s.login.up, LoginTesting), ledger := Drop(s.ledger, moved)), (moved, 2, 7), work)
            && MovesOnly(s, s.(login := LoginThread(s.login.up, LoginOwing), requests := Push(s.requests, moved)), (moved, 2, 3), work)
  {
    hide Drop;
    LedgerCounts(s.ledger, s.login.at.work, 0, work);
    Appended(s.requests.queue, s.login.at.work, work);
  }

  lemma TakesLogin(s: State, work: Work)
    requires s.logins.queue != [] && !s.login.at.LoginHolding?
    ensures var head := s.logins.queue[0];
            MovesOnly(s, s.(logins := Pop(s.logins), login := LoginThread(s.login.up, LoginHolding(head))), (head, 1, 2), work)
  {
    Split(s.logins.queue, work);
  }

  lemma TakesRequest(s: State, work: Work)
    requires s.requests.queue != [] && !s.http.at.HttpHolding?
    ensures var head := s.requests.queue[0];
            MovesOnly(s, s.(requests := Pop(s.requests), http := s.http.(at := HttpHolding(head))), (head, 3, 4), work)
  {
    Split(s.requests.queue, work);
  }

  /** A thread that holds nothing, before and after, moves nothing by that. */
  lemma TurnsEmptyHanded(s: State, v: State, work: Work)
    requires s.logins.queue == v.logins.queue && s.requests.queue == v.requests.queue
    requires s.replies.queue == v.replies.queue && s.pages.queue == v.pages.queue && s.ledger == v.ledger
    requires s.login.at == v.login.at || (!s.login.at.LoginHolding? && !v.login.at.LoginHolding?)
    requires s.http.at == v.http.at || (!s.http.at.HttpHolding? && !v.http.at.HttpHolding?)
    requires s.http.flight == v.http.flight
    ensures Goes(s, v, work, 0, 0)
  {
  }

  lemma LoginMoves(s: State, e: LoginStep, work: Work)
    requires WellKept(s) && LoginEnabled(s, e)
    ensures MovesOnly(s, LoginNext(s, e), Moved(s, LoginServer(e)), work)
  {
    hide Goes, Drop, Push, Pop;
    if e.LoginForwards? {
      Forwards(s, work);
    } else if e.LoginTakes? && s.logins.queue != [] {
      TakesLogin(s, work);
    } else {
      TurnsEmptyHanded(s, LoginNext(s, e), work);
    }
  }

  lemma Lifts(s: State, work: Work)
    requires s.http.at.HttpHolding?
    ensures var moved := s.http.at.work;
            MovesOnly(s, s.(http := s.http.(at := HttpTesting, flight := TakeOff(s.http.flight, moved))), (moved, 4, 5), work)
  {
    hide TakeOff;
    FlightCounts(s.http.flight, s.http.at.work, work);
  }

  lemma Refuses(s: State, work: Work)
    requires s.http.at.HttpHolding?
    ensures var moved := s.http.at.work;
            MovesOnly(s, s.(http := s.http.(at := HttpTesting), ledger := Drop(s.ledger, moved)), (moved, 4, 7), work)
  {
    hide Drop;
    LedgerCounts(s.ledger, s.http.at.work, 0, work);
  }

  lemma Completes(s: State, done: Work, debt: HttpDebt, work: Work)
    requires done in s.http.flight
    ensures var http := s.http.(flight := Land(s.http.flight, done), debt := debt);
            && MovesOnly(s, s.(replies := Push(s.replies, done), http := http), (done, 5, 6), work)
            && MovesOnly(s, s.(pages := Push(s.pages, done), http := http), (done, 5, 6), work)
  {
    hide Land;
    FlightCounts(s.http.flight, done, work);
    Appended(s.replies.queue, done, work);
    Appended(s.pages.queue, done, work);
  }

  lemma TransferMoves(s: State, e: HttpStep, work: Work)
    requires HttpEnabled(s, e) && (e.HttpBegins? || e.HttpCompletes?)
    ensures MovesOnly(s, HttpNext(s, e), Moved(s, Http(e)), work)
  {
    hide MovesOnly, TakeOff, Land, Drop, Push;
    if e.HttpBegins? {
      Lifts(s, work);
      Refuses(s, work);
    } else {
      Completes(s, e.work, OwesLoginReply, work);
      Completes(s, e.work, OwesPageReply, work);
    }
  }

  lemma HttpMoves(s: State, e: HttpStep, work: Work)
    requires WellKept(s) && HttpEnabled(s, e)
    ensures MovesOnly(s, HttpNext(s, e), Moved(s, Http(e)), work)
  {
    hide Goes, Drop, Push, Pop, TakeOff, Land;
    if e.HttpBegins? || e.HttpCompletes? {
      TransferMoves(s, e, work);
    } else if e.HttpTakes? && s.requests.queue != [] {
      TakesRequest(s, work);
    } else {
      TurnsEmptyHanded(s, HttpNext(s, e), work);
    }
  }

  /** Every step moves at most one request, from one stage to the next, except that a
      failure settles it; so no request skips a stage or goes back. */
  lemma PassesEveryStage(s: State, e: Step, work: Work)
    requires Inv(s) && Enabled(s, e)
    ensures MovesOnly(s, Next(s, e), Moved(s, e), work)
    ensures var (_, from, to) := Moved(s, e);
            to == 0 || to == from + 1 || (from == 0 && to == 3) || (Fails(e) && to == 7)
  {
    hide MovesOnly, Conserved, AcceptedOnce, Bounded, StrandedOnly, Routed, ServerNext, LoginNext, HttpNext;
    match e
    case Server(step) => ServerMoves(s, step, work);
    case LoginServer(step) => LoginMoves(s, step, work);
    case Http(step) => HttpMoves(s, step, work);
  }

  /** The queues are first in, first out. */
  lemma QueuesKeepOrder(s: State, e: Step)
    requires Enabled(s, e)
    ensures var v := Next(s, e);
            && Turns(s.logins.queue, v.logins.queue) && Turns(s.requests.queue, v.requests.queue)
            && Turns(s.replies.queue, v.replies.queue) && Turns(s.pages.queue, v.pages.queue)
  {
  }

  predicate Turns(was: seq<Work>, now: seq<Work>) {
    now == was || (was != [] && now == was[1..]) || (|now| == |was| + 1 && now[..|was|] == was)
  }
}
