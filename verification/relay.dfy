/** The login relay: the server thread hands login requests to the login thread,
    which hands them to the HTTP thread, whose answers come back to the server.
    Each hop is a queue under a mutex and a wakeup that may coalesce with an
    earlier one; a wakeup's flag is cleared before its callback runs. Any thread
    may take the next step. */
module Relay {
  type ConId = nat

  /** A login of one connection, or a page that the chat scripts asked for. */
  datatype Work = Login(con: ConId) | Page(number: nat)

  /** A queue and the flag that its consumer is to be woken. `missed` records that
      the last wakeup was sent before the consumer's loop existed. */
  datatype Hop = Hop(queue: seq<Work>, wake: bool, missed: bool)

  function Push(hop: Hop, work: Work): Hop {
    hop.(queue := hop.queue + [work])
  }

  function Pop(hop: Hop): Hop
    requires hop.queue != []
  {
    hop.(queue := hop.queue[1..])
  }

  function Wake(hop: Hop, up: bool): Hop {
    if up then hop.(wake := true, missed := false) else hop.(missed := true)
  }

  function Clear(hop: Hop): Hop {
    hop.(wake := false)
  }

  // Where each thread is. A thread that owes a wakeup has pushed and not yet sent.
  datatype ServerAt = Idle | DrainingLogins | DrainingPages
  datatype ServerDebt = ServerClear | OwesLoginThread | OwesHttpThread
  datatype LoginAt = LoginAsleep | LoginTesting | LoginHolding(work: Work) | LoginOwing
  datatype HttpAt = HttpAsleep | HttpTesting | HttpHolding(work: Work)
  datatype HttpDebt = HttpClear | OwesLoginReply | OwesPageReply

  datatype ServerThread = ServerThread(at: ServerAt, debt: ServerDebt)
  datatype LoginThread = LoginThread(up: bool, at: LoginAt)
  datatype HttpThread = HttpThread(up: bool, at: HttpAt, debt: HttpDebt, flight: multiset<Work>)

  /** Whose login has begun, and what has come of every request. */
  datatype Ledger = Ledger(
    authStarted: set<ConId>,
    pages: nat,
    accepted: multiset<Work>,
    answered: multiset<Work>,
    dropped: multiset<Work>)

  datatype State = State(
    maxSlots: nat,
    ledger: Ledger,
    server: ServerThread,
    logins: Hop,
    login: LoginThread,
    requests: Hop,
    http: HttpThread,
    replies: Hop,
    pages: Hop)

  datatype ServerStep =
    | IdentCommand(con: ConId, wellFormed: bool, locked: bool)
    | PageRequest(locked: bool)
    | ServerSends
    | ServerWakes
    | ServerTakesReply
    | ServerWakesForPages
    | ServerTakesPage

  datatype LoginStep =
    | LoginStarts
    | LoginWakes
    | LoginTakes
    | LoginForwards(locked: bool)
    | LoginSends

  datatype HttpStep =
    | HttpStarts
    | HttpWakes
    | HttpTakes
    | HttpBegins(ok: bool)
    | HttpCompletes(work: Work)
    | HttpSends

  datatype Step = Server(s: ServerStep) | LoginServer(l: LoginStep) | Http(h: HttpStep)

  // -------------------------------------------------------------------------
  // The server thread

  predicate ServerEnabled(s: State, e: ServerStep) {
    match e
    case IdentCommand(_, _, _) => s.server.at == Idle && s.server.debt == ServerClear
    case PageRequest(_) => s.server.debt == ServerClear
    case ServerSends => s.server.debt != ServerClear
    case ServerWakes => s.server.at == Idle && s.server.debt == ServerClear && s.replies.wake
    case ServerTakesReply => s.server.at == DrainingLogins && s.server.debt == ServerClear
    case ServerWakesForPages => s.server.at == Idle && s.server.debt == ServerClear && s.pages.wake
    case ServerTakesPage => s.server.at == DrainingPages && s.server.debt == ServerClear
  }

  function Begin(ledger: Ledger, con: ConId): Ledger {
    ledger.(authStarted := ledger.authStarted + {con})
  }

  function AcceptLogin(ledger: Ledger, con: ConId): Ledger {
    ledger.(authStarted := ledger.authStarted + {con}, accepted := ledger.accepted + multiset{Login(con)})
  }

  function AcceptPage(ledger: Ledger): Ledger {
    ledger.(pages := ledger.pages + 1, accepted := ledger.accepted + multiset{Page(ledger.pages)})
  }

  function Answer(ledger: Ledger, work: Work): Ledger {
    ledger.(answered := ledger.answered + multiset{work})
  }

  function Drop(ledger: Ledger, work: Work): Ledger {
    ledger.(dropped := ledger.dropped + multiset{work})
  }

  /** One login attempt per connection; it may be refused. */
  function Ident(s: State, con: ConId, wellFormed: bool, locked: bool): State {
    if con in s.ledger.authStarted then s
    else if !wellFormed || !locked || |s.logins.queue| >= s.maxSlots then s.(ledger := Begin(s.ledger, con))
    else s.(ledger := AcceptLogin(s.ledger, con), logins := Push(s.logins, Login(con)),
            server := ServerThread(Idle, OwesLoginThread))
  }

  function ServerNext(s: State, e: ServerStep): State
    requires ServerEnabled(s, e)
  {
    match e
    case IdentCommand(con, wellFormed, locked) => Ident(s, con, wellFormed, locked)
    case PageRequest(locked) =>
      if !locked then s
      else s.(ledger := AcceptPage(s.ledger), requests := Push(s.requests, Page(s.ledger.pages)),
              server := ServerThread(s.server.at, OwesHttpThread))
    case ServerSends =>
      if s.server.debt == OwesLoginThread
      then s.(logins := Wake(s.logins, s.login.up), server := ServerThread(s.server.at, ServerClear))
      else s.(requests := Wake(s.requests, s.http.up), server := ServerThread(s.server.at, ServerClear))
    case ServerWakes => s.(replies := Clear(s.replies), server := ServerThread(DrainingLogins, ServerClear))
    case ServerTakesReply =>
      if s.replies.queue == [] then s.(server := ServerThread(Idle, ServerClear))
      else s.(replies := Pop(s.replies), ledger := Answer(s.ledger, s.replies.queue[0]))
    case ServerWakesForPages => s.(pages := Clear(s.pages), server := ServerThread(DrainingPages, ServerClear))
    case ServerTakesPage =>
      if s.pages.queue == [] then s.(server := ServerThread(Idle, ServerClear))
      else s.(pages := Pop(s.pages), ledger := Answer(s.ledger, s.pages.queue[0]))
  }

  // -------------------------------------------------------------------------
  // The login thread

  predicate LoginEnabled(s: State, e: LoginStep) {
    match e
    case LoginStarts => !s.login.up
    case LoginWakes => s.login.up && s.login.at == LoginAsleep && s.logins.wake
    case LoginTakes => s.login.at == LoginTesting
    case LoginForwards(_) => s.login.at.LoginHolding?
    case LoginSends => s.login.at == LoginOwing
  }

  function LoginNext(s: State, e: LoginStep): State
    requires LoginEnabled(s, e)
  {
    match e
    case LoginStarts => s.(login := LoginThread(true, LoginAsleep))
    case LoginWakes => s.(logins := Clear(s.logins), login := LoginThread(true, LoginTesting))
    case LoginTakes =>
      if s.logins.queue == [] then s.(login := LoginThread(s.login.up, LoginAsleep))
      else s.(logins := Pop(s.logins), login := LoginThread(s.login.up, LoginHolding(s.logins.queue[0])))
    case LoginForwards(locked) =>
      if !locked then s.(login := LoginThread(s.login.up, LoginTesting), ledger := Drop(s.ledger, s.login.at.work))
      else s.(login := LoginThread(s.login.up, LoginOwing), requests := Push(s.requests, s.login.at.work))
    case LoginSends => s.(requests := Wake(s.requests, s.http.up), login := LoginThread(s.login.up, LoginTesting))
  }

  // -------------------------------------------------------------------------
  // The HTTP thread

  predicate HttpEnabled(s: State, e: HttpStep) {
    match e
    case HttpStarts => !s.http.up
    case HttpWakes => s.http.up && s.http.at == HttpAsleep && s.http.debt == HttpClear && s.requests.wake
    case HttpTakes => s.http.at == HttpTesting && s.http.debt == HttpClear
    case HttpBegins(_) => s.http.at.HttpHolding? && s.http.debt == HttpClear
    case HttpCompletes(work) => work in s.http.flight && s.http.debt == HttpClear
    case HttpSends => s.http.debt != HttpClear
  }

  function TakeOff(flight: multiset<Work>, work: Work): multiset<Work> {
    flight + multiset{work}
  }

  function Land(flight: multiset<Work>, work: Work): multiset<Work> {
    flight - multiset{work}
  }

  function HttpNext(s: State, e: HttpStep): State
    requires HttpEnabled(s, e)
  {
    match e
    case HttpStarts => s.(http := HttpThread(true, HttpAsleep, s.http.debt, s.http.flight))
    case HttpWakes => s.(requests := Clear(s.requests), http := s.http.(at := HttpTesting))
    case HttpTakes =>
      if s.requests.queue == [] then s.(http := s.http.(at := HttpAsleep))
      else s.(requests := Pop(s.requests), http := s.http.(at := HttpHolding(s.requests.queue[0])))
    case HttpBegins(ok) =>
      if !ok then s.(http := s.http.(at := HttpTesting), ledger := Drop(s.ledger, s.http.at.work))
      else s.(http := s.http.(at := HttpTesting, flight := TakeOff(s.http.flight, s.http.at.work)))
    case HttpCompletes(work) =>
      var flight := Land(s.http.flight, work);
      if work.Login? then s.(replies := Push(s.replies, work), http := s.http.(flight := flight, debt := OwesLoginReply))
      else s.(pages := Push(s.pages, work), http := s.http.(flight := flight, debt := OwesPageReply))
    case HttpSends =>
      if s.http.debt == OwesLoginReply then s.(replies := Wake(s.replies, true), http := s.http.(debt := HttpClear))
      else s.(pages := Wake(s.pages, true), http := s.http.(debt := HttpClear))
  }

  // -------------------------------------------------------------------------
  // Runs

  predicate Enabled(s: State, e: Step) {
    match e
    case Server(e) => ServerEnabled(s, e)
    case LoginServer(e) => LoginEnabled(s, e)
    case Http(e) => HttpEnabled(s, e)
  }

  function Next(s: State, e: Step): State
    requires Enabled(s, e)
  {
    match e
    case Server(e) => ServerNext(s, e)
    case LoginServer(e) => LoginNext(s, e)
    case Http(e) => HttpNext(s, e)
  }

  /** Steps that no client, no script and no starting thread brings about. */
  predicate Internal(e: Step) {
    match e
    case Server(e) => !e.IdentCommand? && !e.PageRequest?
    case LoginServer(e) => !e.LoginStarts?
    case Http(e) => !e.HttpStarts?
  }

  ghost predicate Possible(s: State, steps: seq<Step>)
    decreases |steps|
  {
    steps == [] || (Enabled(s, steps[0]) && Possible(Next(s, steps[0]), steps[1..]))
  }

  ghost function Run(s: State, steps: seq<Step>): State
    requires Possible(s, steps)
    decreases |steps|
  {
    if steps == [] then s else Run(Next(s, steps[0]), steps[1..])
  }

  const EMPTY_HOP := Hop([], false, false)

  function Start(maxSlots: nat, loginUp: bool, httpUp: bool): State {
    State(maxSlots, Ledger({}, 0, multiset{}, multiset{}, multiset{}), ServerThread(Idle, ServerClear),
          EMPTY_HOP, LoginThread(loginUp, LoginAsleep), EMPTY_HOP, HttpThread(httpUp, HttpAsleep, HttpClear, multiset{}),
          EMPTY_HOP, EMPTY_HOP)
  }

  // -------------------------------------------------------------------------
  // Conservation: every accepted request is in exactly one place

  function One(b: bool): nat {
    if b then 1 else 0
  }

  function InQueue(hop: Hop, work: Work): nat {
    multiset(hop.queue)[work]
  }

  /** How often a request is still on its way: in the login queue, the login
      thread, the HTTP queue, the HTTP thread, in flight, or in a reply queue. */
  function Underway(s: State, work: Work): nat {
    InQueue(s.logins, work) + One(s.login.at == LoginHolding(work)) + InQueue(s.requests, work)
    + One(s.http.at == HttpHolding(work)) + s.http.flight[work] + InQueue(s.replies, work) + InQueue(s.pages, work)
  }

  predicate Settled(s: State, work: Work) {
    Underway(s, work) + s.ledger.answered[work] + s.ledger.dropped[work] == s.ledger.accepted[work]
  }

  ghost predicate Conserved(s: State) {
    forall work :: Settled(s, work)
  }

  /** A request is accepted at most once: a login by the gate on its connection,
      a page by its number. */
  ghost predicate AcceptedOnce(ledger: Ledger) {
    forall work :: work in ledger.accepted ==>
      && ledger.accepted[work] == 1
      && if work.Login? then work.con in ledger.authStarted else work.number < ledger.pages
  }

  predicate Bounded(s: State) {
    |s.logins.queue| <= s.maxSlots
  }

  // -------------------------------------------------------------------------
  // No lost wakeup: somebody will look at every queue that is not empty

  predicate Signalled(hop: Hop) {
    hop.queue == [] || hop.wake || hop.missed
  }

  predicate LoginsAttended(s: State) {
    Signalled(s.logins) || s.login.at != LoginAsleep || s.server.debt == OwesLoginThread
  }

  predicate RequestsAttended(s: State) {
    Signalled(s.requests) || s.http.at != HttpAsleep || s.login.at == LoginOwing || s.server.debt == OwesHttpThread
  }

  predicate RepliesAttended(s: State) {
    Signalled(s.replies) || s.server.at == DrainingLogins || s.http.debt == OwesLoginReply
  }

  predicate PagesAttended(s: State) {
    Signalled(s.pages) || s.server.at == DrainingPages || s.http.debt == OwesPageReply
  }

  /** A thread that has not started is asleep, and a server wakeup is never missed. */
  predicate WellKept(s: State) {
    && (s.login.up || (s.login.at == LoginAsleep && !s.logins.wake))
    && (s.http.up || (s.http.at == HttpAsleep && !s.requests.wake))
    && !s.replies.missed && !s.pages.missed
  }

  predicate Attended(s: State) {
    LoginsAttended(s) && RequestsAttended(s) && RepliesAttended(s) && PagesAttended(s) && WellKept(s)
  }

  /** A missed wakeup leaves its consumer asleep before a queue that is not empty. */
  predicate Stranded(hop: Hop, asleep: bool) {
    hop.missed ==> hop.queue != [] && !hop.wake && asleep
  }

  /** What is pushed for a thread that has not started stays in its queue. */
  predicate StrandedOnly(s: State) {
    && Stranded(s.logins, s.login.at == LoginAsleep)
    && Stranded(s.requests, s.http.at == HttpAsleep)
    && (!s.login.up && s.server.debt == OwesLoginThread ==> s.logins.queue != [])
    && (!s.http.up && (s.server.debt == OwesHttpThread || s.login.at == LoginOwing) ==> s.requests.queue != [])
  }

  /** Answers to logins and answers to pages come back in queues of their own. */
  predicate Routed(s: State) {
    (forall work :: work in s.replies.queue ==> work.Login?) && (forall work :: work in s.pages.queue ==> work.Page?)
  }

  ghost predicate Inv(s: State) {
    Conserved(s) && AcceptedOnce(s.ledger) && Bounded(s) && Attended(s) && StrandedOnly(s) && Routed(s)
  }

  lemma StartHolds(maxSlots: nat, loginUp: bool, httpUp: bool)
    ensures Inv(Start(maxSlots, loginUp, httpUp))
  {
  }

  lemma PushAdds(hop: Hop, pushed: Work, work: Work)
    ensures InQueue(Push(hop, pushed), work) == InQueue(hop, work) + One(work == pushed)
  {
  }

  lemma PopTakes(hop: Hop, work: Work)
    requires hop.queue != []
    ensures InQueue(Pop(hop), work) == InQueue(hop, work) - One(work == hop.queue[0])
  {
    assert hop.queue == [hop.queue[0]] + hop.queue[1..];
  }

  lemma LedgerCounts(ledger: Ledger, moved: Work, con: ConId, work: Work)
    ensures Drop(ledger, moved).dropped[work] == ledger.dropped[work] + One(work == moved)
    ensures Drop(ledger, moved).accepted == ledger.accepted && Drop(ledger, moved).answered == ledger.answered
    ensures Answer(ledger, moved).answered[work] == ledger.answered[work] + One(work == moved)
    ensures Answer(ledger, moved).accepted == ledger.accepted && Answer(ledger, moved).dropped == ledger.dropped
    ensures AcceptLogin(ledger, con).accepted[work] == ledger.accepted[work] + One(work == Login(con))
    ensures AcceptLogin(ledger, con).answered == ledger.answered && AcceptLogin(ledger, con).dropped == ledger.dropped
    ensures AcceptPage(ledger).accepted[work] == ledger.accepted[work] + One(work == Page(ledger.pages))
    ensures AcceptPage(ledger).answered == ledger.answered && AcceptPage(ledger).dropped == ledger.dropped
  {
  }

  lemma ServerConserves(s: State, e: ServerStep, work: Work)
    requires Settled(s, work) && ServerEnabled(s, e)
    ensures Settled(ServerNext(s, e), work)
  {
    hide InQueue, AcceptLogin, AcceptPage, Answer, Push, Pop, Wake, Clear;
    match e
    case IdentCommand(con, _, _) =>
      PushAdds(s.logins, Login(con), work);
      LedgerCounts(s.ledger, Login(con), con, work);
    case PageRequest(_) =>
      PushAdds(s.requests, Page(s.ledger.pages), work);
      LedgerCounts(s.ledger, work, 0, work);
    case ServerSends =>
      SignalsCountNothing(s.logins, s.login.up, work);
      SignalsCountNothing(s.requests, s.http.up, work);
    case ServerWakes => SignalsCountNothing(s.replies, true, work);
    case ServerTakesReply =>
      if s.replies.queue != [] {
        PopTakes(s.replies, work);
        LedgerCounts(s.ledger, s.replies.queue[0], 0, work);
      }
    case ServerWakesForPages => SignalsCountNothing(s.pages, true, work);
    case ServerTakesPage =>
      if s.pages.queue != [] {
        PopTakes(s.pages, work);
        LedgerCounts(s.ledger, s.pages.queue[0], 0, work);
      }
  }

  lemma SignalsCountNothing(hop: Hop, up: bool, work: Work)
    ensures InQueue(Wake(hop, up), work) == InQueue(hop, work) == InQueue(Clear(hop), work)
  {
  }

  lemma LoginConserves(s: State, e: LoginStep, work: Work)
    requires Settled(s, work) && LoginEnabled(s, e)
    requires !s.login.up ==> s.login.at == LoginAsleep
    ensures Settled(LoginNext(s, e), work)
  {
    hide InQueue;
    match e
    case LoginStarts =>
    case LoginWakes => SignalsCountNothing(s.logins, true, work);
    case LoginTakes => if s.logins.queue != [] { PopTakes(s.logins, work); }
    case LoginForwards(_) => PushAdds(s.requests, s.login.at.work, work);
    case LoginSends => SignalsCountNothing(s.requests, s.http.up, work);
  }

  lemma FlightCounts(flight: multiset<Work>, moved: Work, work: Work)
    ensures TakeOff(flight, moved)[work] == flight[work] + One(work == moved)
    ensures moved in flight ==> Land(flight, moved)[work] == flight[work] - One(work == moved)
  {
  }

  lemma HttpConserves(s: State, e: HttpStep, work: Work)
    requires Settled(s, work) && HttpEnabled(s, e)
    requires !s.http.up ==> s.http.at == HttpAsleep
    ensures Settled(HttpNext(s, e), work)
  {
    hide InQueue, TakeOff, Land, Drop, Push, Pop, Wake, Clear;
    match e
    case HttpStarts =>
    case HttpWakes => SignalsCountNothing(s.requests, true, work);
    case HttpTakes => if s.requests.queue != [] { PopTakes(s.requests, work); }
    case HttpBegins(_) => HttpBeginsConserves(s, e, work);
    case HttpCompletes(_) => HttpCompletesConserves(s, e, work);
    case HttpSends =>
      SignalsCountNothing(s.replies, true, work);
      SignalsCountNothing(s.pages, true, work);
  }

  lemma HttpBeginsConserves(s: State, e: HttpStep, work: Work)
    requires Settled(s, work) && HttpEnabled(s, e) && e.HttpBegins?
    ensures Settled(HttpNext(s, e), work)
  {
    hide InQueue, TakeOff, Drop;
    FlightCounts(s.http.flight, s.http.at.work, work);
    LedgerCounts(s.ledger, s.http.at.work, 0, work);
  }

  lemma HttpCompletesConserves(s: State, e: HttpStep, work: Work)
    requires Settled(s, work) && HttpEnabled(s, e) && e.HttpCompletes?
    ensures Settled(HttpNext(s, e), work)
  {
    hide InQueue, Land, Push;
    FlightCounts(s.http.flight, e.work, work);
    PushAdds(s.replies, e.work, work);
    PushAdds(s.pages, e.work, work);
  }

  lemma StepConserves(s: State, e: Step)
    requires Conserved(s) && WellKept(s) && Enabled(s, e)
    ensures Conserved(Next(s, e))
  {
    hide Settled, ServerNext, LoginNext, HttpNext;
    forall work
      ensures Settled(Next(s, e), work)
    {
      match e
      case Server(e) => ServerConserves(s, e, work);
      case LoginServer(e) => LoginConserves(s, e, work);
      case Http(e) => HttpConserves(s, e, work);
    }
  }

  lemma StepAcceptsOnce(s: State, e: Step)
    requires AcceptedOnce(s.ledger) && Enabled(s, e)
    ensures AcceptedOnce(Next(s, e).ledger)
  {
  }

  lemma StepKeepsBound(s: State, e: Step)
    requires Bounded(s) && Enabled(s, e)
    ensures Bounded(Next(s, e)) && Next(s, e).maxSlots == s.maxSlots
  {
  }

  lemma StepAttends(s: State, e: Step)
    requires Attended(s) && Enabled(s, e)
    ensures Attended(Next(s, e))
  {
    match e
    case Server(e) => ServerAttends(s, e);
    case LoginServer(e) => LoginAttends(s, e);
    case Http(e) => HttpAttends(s, e);
  }

  lemma ServerAttends(s: State, e: ServerStep)
    requires Attended(s) && ServerEnabled(s, e)
    ensures Attended(ServerNext(s, e))
  {
  }

  lemma LoginAttends(s: State, e: LoginStep)
    requires Attended(s) && LoginEnabled(s, e)
    ensures Attended(LoginNext(s, e))
  {
  }

  lemma HttpAttends(s: State, e: HttpStep)
    requires Attended(s) && HttpEnabled(s, e)
    ensures Attended(HttpNext(s, e))
  {
  }

  lemma StepStrands(s: State, e: Step)
    requires WellKept(s) && StrandedOnly(s) && Enabled(s, e)
    ensures StrandedOnly(Next(s, e))
  {
    match e
    case Server(e) => ServerStrands(s, e);
    case LoginServer(e) => LoginStrands(s, e);
    case Http(e) => HttpStrands(s, e);
  }

  lemma ServerStrands(s: State, e: ServerStep)
    requires WellKept(s) && StrandedOnly(s) && ServerEnabled(s, e)
    ensures StrandedOnly(ServerNext(s, e))
  {
  }

  lemma LoginStrands(s: State, e: LoginStep)
    requires WellKept(s) && StrandedOnly(s) && LoginEnabled(s, e)
    ensures StrandedOnly(LoginNext(s, e))
  {
  }

  lemma HttpStrands(s: State, e: HttpStep)
    requires WellKept(s) && StrandedOnly(s) && HttpEnabled(s, e)
    ensures StrandedOnly(HttpNext(s, e))
  {
  }

  lemma StepRoutes(s: State, e: Step)
    requires Routed(s) && Enabled(s, e)
    ensures Routed(Next(s, e))
  {
  }

  lemma StepKeeps(s: State, e: Step)
    requires Inv(s) && Enabled(s, e)
    ensures Inv(Next(s, e))
  {
    hide Next, Enabled, StrandedOnly, Routed, Conserved, AcceptedOnce, Bounded, LoginsAttended, RequestsAttended, RepliesAttended, PagesAttended;
    StepConserves(s, e);
    StepAcceptsOnce(s, e);
    StepKeepsBound(s, e);
    StepAttends(s, e);
    StepStrands(s, e);
    StepRoutes(s, e);
  }

  lemma {:induction false} RunKeeps(s: State, steps: seq<Step>)
    requires Inv(s) && Possible(s, steps)
    ensures Inv(Run(s, steps))
    decreases |steps|
  {
    hide Inv, Next, Enabled;
    if steps != [] {
      StepKeeps(s, steps[0]);
      RunKeeps(Next(s, steps[0]), steps[1..]);
    }
  }

  // -------------------------------------------------------------------------
  // Over every run

  /** No wakeup is lost: in whatever order the threads start and step, whoever has
      to look at a queue that is not empty is awake, about to be woken, or will be
      as soon as the thread that pushed has sent, unless the last wakeup was sent
      before the loop of its receiver existed. */
  lemma NoLostWakeup(maxSlots: nat, loginUp: bool, httpUp: bool, steps: seq<Step>)
    requires Possible(Start(maxSlots, loginUp, httpUp), steps)
    ensures var s := Run(Start(maxSlots, loginUp, httpUp), steps);
            && (s.logins.queue != [] ==>
                  s.logins.wake || s.logins.missed || s.login.at != LoginAsleep || s.server.debt == OwesLoginThread)
            && (s.requests.queue != [] ==>
                  || s.requests.wake || s.requests.missed || s.http.at != HttpAsleep
                  || s.login.at == LoginOwing || s.server.debt == OwesHttpThread)
            && (s.replies.queue != [] ==> s.replies.wake || s.server.at == DrainingLogins || s.http.debt == OwesLoginReply)
            && (s.pages.queue != [] ==> s.pages.wake || s.server.at == DrainingPages || s.http.debt == OwesPageReply)
            && (loginUp ==> !s.logins.missed) && (httpUp ==> !s.requests.missed)
  {
    var s := Start(maxSlots, loginUp, httpUp);
    StartHolds(maxSlots, loginUp, httpUp);
    RunKeeps(s, steps);
    NothingMissed(s, steps);
  }

  /** A loop that exists misses no wakeup. */
  predicate Reached(up: bool, hop: Hop) {
    up && !hop.missed
  }

  lemma StepReaches(s: State, e: Step)
    requires Enabled(s, e)
    ensures Reached(s.login.up, s.logins) ==> Reached(Next(s, e).login.up, Next(s, e).logins)
    ensures Reached(s.http.up, s.requests) ==> Reached(Next(s, e).http.up, Next(s, e).requests)
  {
  }

  lemma {:induction false} NothingMissed(s: State, steps: seq<Step>)
    requires Possible(s, steps)
    ensures Reached(s.login.up, s.logins) ==> Reached(Run(s, steps).login.up, Run(s, steps).logins)
    ensures Reached(s.http.up, s.requests) ==> Reached(Run(s, steps).http.up, Run(s, steps).requests)
    decreases |steps|
  {
    hide Next, Enabled, Reached;
    if steps != [] {
      StepReaches(s, steps[0]);
      NothingMissed(Next(s, steps[0]), steps[1..]);
    }
  }

  /** Every accepted request is in exactly one place, and a connection is given
      at most one answer, whatever else happens. */
  lemma EachRequestOnce(maxSlots: nat, loginUp: bool, httpUp: bool, steps: seq<Step>, work: Work)
    requires Possible(Start(maxSlots, loginUp, httpUp), steps)
    ensures var s := Run(Start(maxSlots, loginUp, httpUp), steps);
            && Underway(s, work) + s.ledger.answered[work] + s.ledger.dropped[work] == One(work in s.ledger.accepted)
            && (work in s.ledger.accepted && work.Login? ==> work.con in s.ledger.authStarted)
            && |s.logins.queue| <= maxSlots
  {
    StartHolds(maxSlots, loginUp, httpUp);
    RunKeeps(Start(maxSlots, loginUp, httpUp), steps);
    SlotsAreFixed(Start(maxSlots, loginUp, httpUp), steps);
    var s := Run(Start(maxSlots, loginUp, httpUp), steps);
    assert Settled(s, work);
  }

  lemma {:induction false} SlotsAreFixed(s: State, steps: seq<Step>)
    requires Possible(s, steps)
    ensures Run(s, steps).maxSlots == s.maxSlots
    decreases |steps|
  {
    if steps != [] {
      assert Next(s, steps[0]).maxSlots == s.maxSlots;
      hide Next, Enabled;
      SlotsAreFixed(Next(s, steps[0]), steps[1..]);
    }
  }

  // -------------------------------------------------------------------------
  // The relay comes to rest, and then every request has been dealt with

  function LoginWeight(at: LoginAt): nat {
    match at
    case LoginAsleep => 0
    case LoginTesting => 1
    case LoginHolding(_) => 14
    case LoginOwing => 5
  }

  function HttpWeight(at: HttpAt): nat {
    match at
    case HttpAsleep => 0
    case HttpTesting => 1
    case HttpHolding(_) => 8
  }

  function HopWeight(hop: Hop, each: nat): nat {
    each * |hop.queue| + 3 * One(hop.wake)
  }

  /** How much the threads still have to do. */
  function Remaining(s: State): nat {
    HopWeight(s.logins, 14) + LoginWeight(s.login.at) + HopWeight(s.requests, 8) + HttpWeight(s.http.at)
    + 6 * |s.http.flight| + 4 * One(s.http.debt != HttpClear) + HopWeight(s.replies, 1) + HopWeight(s.pages, 1)
    + One(s.server.at != Idle) + 4 * One(s.server.debt != ServerClear)
  }

  lemma HopWeighs(hop: Hop, each: nat, work: Work, up: bool)
    ensures HopWeight(Push(hop, work), each) == HopWeight(hop, each) + each
    ensures hop.queue != [] ==> HopWeight(Pop(hop), each) == HopWeight(hop, each) - each
    ensures HopWeight(Wake(hop, up), each) <= HopWeight(hop, each) + 3
    ensures hop.wake ==> HopWeight(Clear(hop), each) == HopWeight(hop, each) - 3
  {
    assert each * (|hop.queue| + 1) == each * |hop.queue| + each;
    assert each * (|hop.queue| - 1) == each * |hop.queue| - each;
  }

  lemma ServerGetsOn(s: State, e: ServerStep)
    requires ServerEnabled(s, e) && !e.IdentCommand? && !e.PageRequest?
    ensures Remaining(ServerNext(s, e)) < Remaining(s)
  {
    hide HopWeight, Push, Pop, Wake, Clear;
    HopWeighs(s.logins, 14, Page(0), s.login.up);
    HopWeighs(s.requests, 8, Page(0), s.http.up);
    HopWeighs(s.replies, 1, Page(0), true);
    HopWeighs(s.pages, 1, Page(0), true);
  }

  lemma LoginGetsOn(s: State, e: LoginStep)
    requires LoginEnabled(s, e) && !e.LoginStarts?
    ensures Remaining(LoginNext(s, e)) < Remaining(s)
  {
    hide HopWeight, Push, Pop, Wake, Clear;
    HopWeighs(s.logins, 14, Page(0), true);
    HopWeighs(s.requests, 8, if s.login.at.LoginHolding? then s.login.at.work else Page(0), s.http.up);
  }

  lemma HttpGetsOn(s: State, e: HttpStep)
    requires HttpEnabled(s, e) && !e.HttpStarts?
    ensures Remaining(HttpNext(s, e)) < Remaining(s)
  {
    hide HopWeight, Push, Pop, Wake, Clear, TakeOff, Land;
    match e
    case HttpWakes => HopWeighs(s.requests, 8, Page(0), true);
    case HttpTakes => HopWeighs(s.requests, 8, Page(0), true);
    case HttpBegins(_) => FlightSize(s.http.flight, s.http.at.work);
    case HttpCompletes(work) =>
      FlightSize(s.http.flight, work);
      HopWeighs(s.replies, 1, work, true);
      HopWeighs(s.pages, 1, work, true);
    case HttpSends =>
      HopWeighs(s.replies, 1, Page(0), true);
      HopWeighs(s.pages, 1, Page(0), true);
  }

  lemma FlightSize(flight: multiset<Work>, work: Work)
    ensures |TakeOff(flight, work)| == |flight| + 1
    ensures work in flight ==> |Land(flight, work)| == |flight| - 1
  {
  }

  lemma InternalStepsGetOn(s: State, e: Step)
    requires Enabled(s, e) && Internal(e)
    ensures Remaining(Next(s, e)) < Remaining(s)
  {
    hide Remaining, ServerNext, LoginNext, HttpNext;
    match e
    case Server(e) => ServerGetsOn(s, e);
    case LoginServer(e) => LoginGetsOn(s, e);
    case Http(e) => HttpGetsOn(s, e);
  }

  /** Left alone, the relay takes at most `Remaining` further steps. */
  lemma {:induction false} RelayComesToRest(s: State, steps: seq<Step>)
    requires Possible(s, steps) && forall e :: e in steps ==> Internal(e)
    ensures |steps| + Remaining(Run(s, steps)) <= Remaining(s)
    decreases |steps|
  {
    hide Next, Enabled, Internal, Remaining;
    if steps != [] {
      assert steps[0] in steps;
      InternalStepsGetOn(s, steps[0]);
      RelayComesToRest(Next(s, steps[0]), steps[1..]);
    }
  }

  predicate AtRest(s: State) {
    && s.server.at == Idle && s.server.debt == ServerClear && !s.replies.wake && !s.pages.wake
    && s.login.at == LoginAsleep && !(s.login.up && s.logins.wake)
    && s.http.at == HttpAsleep && s.http.debt == HttpClear && s.http.flight == multiset{} && !(s.http.up && s.requests.wake)
  }

  /** A step that can be taken, unless all are at rest. */
  lemma StuckExactlyAtRest(s: State)
    ensures AtRest(s) <==> forall e :: Internal(e) ==> !Enabled(s, e)
  {
    if !AtRest(s) {
      var e := SomeStep(s);
      assert Internal(e) && Enabled(s, e);
    }
  }

  ghost function SomeStep(s: State): (e: Step)
    requires !AtRest(s)
    ensures Internal(e) && Enabled(s, e)
  {
    if s.server.debt != ServerClear then Server(ServerSends)
    else if s.server.at == DrainingLogins then Server(ServerTakesReply)
    else if s.server.at == DrainingPages then Server(ServerTakesPage)
    else if s.replies.wake then Server(ServerWakes)
    else if s.pages.wake then Server(ServerWakesForPages)
    else if s.login.at == LoginTesting then LoginServer(LoginTakes)
    else if s.login.at.LoginHolding? then LoginServer(LoginForwards(true))
    else if s.login.at == LoginOwing then LoginServer(LoginSends)
    else if s.login.up && s.logins.wake then LoginServer(LoginWakes)
    else if s.http.debt != HttpClear then Http(HttpSends)
    else if s.http.flight != multiset{} then
      var work :| work in s.http.flight;
      Http(HttpCompletes(work))
    else if s.http.at == HttpTesting then Http(HttpTakes)
    else if s.http.at.HttpHolding? then Http(HttpBegins(true))
    else Http(HttpWakes)
  }

  predicate AllDelivered(s: State) {
    s.logins.queue == s.requests.queue == s.replies.queue == s.pages.queue == []
  }

  /** At rest a queue still holds something exactly when the last wakeup sent to
      its consumer came before the consumer's loop existed. */
  lemma AtRestDeliveredExactlyWhen(maxSlots: nat, loginUp: bool, httpUp: bool, steps: seq<Step>)
    requires Possible(Start(maxSlots, loginUp, httpUp), steps) && AtRest(Run(Start(maxSlots, loginUp, httpUp), steps))
    ensures var s := Run(Start(maxSlots, loginUp, httpUp), steps);
            && (s.logins.queue != [] <==> s.logins.missed)
            && (s.requests.queue != [] <==> s.requests.missed)
            && (AllDelivered(s) <==> !s.logins.missed && !s.requests.missed)
  {
    StartHolds(maxSlots, loginUp, httpUp);
    RunKeeps(Start(maxSlots, loginUp, httpUp), steps);
  }

  /** At rest, with the loops up from the start, every accepted request has been
      answered or dropped, once. */
  lemma AtRestAllIsDone(maxSlots: nat, steps: seq<Step>, work: Work)
    requires Possible(Start(maxSlots, true, true), steps) && AtRest(Run(Start(maxSlots, true, true), steps))
    ensures var s := Run(Start(maxSlots, true, true), steps);
            && AllDelivered(s)
            && s.ledger.answered[work] + s.ledger.dropped[work] == One(work in s.ledger.accepted)
  {
    AtRestDeliveredExactlyWhen(maxSlots, true, true, steps);
    NoLostWakeup(maxSlots, true, true, steps);
    EachRequestOnce(maxSlots, true, true, steps, work);
  }

  lemma ThreeSteps(s: State, e0: Step, e1: Step, e2: Step)
    requires Enabled(s, e0) && Enabled(Next(s, e0), e1) && Enabled(Next(Next(s, e0), e1), e2)
    ensures Possible(s, [e0, e1, e2]) && Run(s, [e0, e1, e2]) == Next(Next(Next(s, e0), e1), e2)
  {
    hide Next, Enabled;
    var s1 := Next(s, e0);
    var s2 := Next(s1, e1);
    var s3 := Next(s2, e2);
    assert [e0, e1, e2][1..] == [e1, e2] && [e1, e2][1..] == [e2] && [e2][1..] == [];
    assert Possible(s3, []) && Run(s3, []) == s3;
    assert Possible(s2, [e2]) && Run(s2, [e2]) == s3;
    assert Possible(s1, [e1, e2]) && Run(s1, [e1, e2]) == s3;
  }

  /** Before the login loop exists a wakeup is lost: the request waits, with all
      threads at rest, until another login sends the next one. */
  lemma EarlyLoginWaits(maxSlots: nat, httpUp: bool, con: ConId)
    requires maxSlots > 0
    ensures var steps := [Server(IdentCommand(con, true, true)), Server(ServerSends), LoginServer(LoginStarts)];
            && Possible(Start(maxSlots, false, httpUp), steps)
            && var s := Run(Start(maxSlots, false, httpUp), steps);
               AtRest(s) && s.login.up && s.logins.queue == [Login(con)]
  {
    ThreeSteps(Start(maxSlots, false, httpUp),
               Server(IdentCommand(con, true, true)), Server(ServerSends), LoginServer(LoginStarts));
  }

  /** The same for a page asked for before the HTTP loop exists. */
  lemma EarlyPageWaits(maxSlots: nat, loginUp: bool)
    ensures var steps := [Server(PageRequest(true)), Server(ServerSends), Http(HttpStarts)];
            && Possible(Start(maxSlots, loginUp, false), steps)
            && var s := Run(Start(maxSlots, loginUp, false), steps);
               AtRest(s) && s.http.up && s.requests.queue == [Page(0)]
  {
    ThreeSteps(Start(maxSlots, loginUp, false), Server(PageRequest(true)), Server(ServerSends), Http(HttpStarts));
  }

  ghost predicate AlwaysDelivers(start: State) {
    forall steps: seq<Step> :: Possible(start, steps) && AtRest(Run(start, steps)) ==> AllDelivered(Run(start, steps))
  }

  /** Every run that comes to rest has emptied every queue exactly when both loops
      existed before the first step; with no login slots only the HTTP loop matters. */
  lemma AlwaysDeliversExactlyWhen(maxSlots: nat, loginUp: bool, httpUp: bool)
    ensures AlwaysDelivers(Start(maxSlots, loginUp, httpUp)) <==> httpUp && (loginUp || maxSlots == 0)
  {
    hide Possible, Run, AtRest, Start;
    var start := Start(maxSlots, loginUp, httpUp);
    if httpUp && (loginUp || maxSlots == 0) {
      forall steps: seq<Step> | Possible(start, steps) && AtRest(Run(start, steps))
        ensures AllDelivered(Run(start, steps))
      {
        AtRestDeliveredExactlyWhen(maxSlots, loginUp, httpUp, steps);
        NoLostWakeup(maxSlots, loginUp, httpUp, steps);
        EachRequestOnce(maxSlots, loginUp, httpUp, steps, Page(0));
      }
    } else if !httpUp {
      EarlyPageWaits(maxSlots, loginUp);
    } else {
      EarlyLoginWaits(maxSlots, httpUp, 0);
    }
  }
}
