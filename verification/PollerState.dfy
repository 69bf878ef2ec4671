/** The poll loop as a state machine. The kernel is an environment: for each entry of the
    poll vector it answers with the events that occurred and with the results of the system
    calls made while the entry is handled. */
module PollerState {
  import opened CppStrings
  import ConfigMachine

  const RECV_SIZE := 2048
  const OK := 200
  const NO_CONTENT := 204
  const NOT_FOUND := 404
  const SERVER_ERROR := 500
  const VERSION_NOT_SUPPORTED := 505

  /** An entry of the poll vector; only client entries ask for writability. */
  datatype PollFd = PollFd(fd: int, wantsWrite: bool)

  datatype Cgi = Cgi(readFd: int, response: string, done: bool)

  /** A connection. `id` counts the accepted connections, `raw` holds the bytes received and
      not yet parsed, `parsed` tells that header fields have been read, `routed` that the
      pointer to the route has been set. */
  datatype Conn = Conn(
    id: nat, raw: string, parsed: bool, status: int, routed: bool, isCgi: bool, cgi: Option<Cgi>, cgiAdded: bool)

  function NewConn(id: nat): Conn {
    Conn(id, "", false, OK, false, false, None, false)
  }

  /** What can be observed of a run. */
  datatype Event =
    | Accepted(id: nat, fd: int)
    | Spawned(id: nat, pipe: int)
    | PipeRead(pipe: int, bytes: string)
    | PipeFailed(pipe: int)
    | Responded(id: nat, bytes: string)
    | CgiSent(id: nat, pipe: int, bytes: string)

  /** `open` holds the descriptors the kernel considers open. */
  datatype State = State(
    listener: int, pfds: seq<PollFd>, clients: map<int, Conn>, dropped: seq<int>, pending: Option<(int, Conn)>,
    open: set<int>, nextId: nat, log: seq<Event>)

  /** Why the loop does not go on: a null connection, a null route, an exception that leaves
      the thread, a decoder that never returns, or a read outside of a string. */
  datatype Cause = NoConnection | NoRoute | Exception | Endless | Undefined

  datatype Received = Data(bytes: string) | Error

  datatype ParseResult = ParsedTo(status: int, headersRead: bool) | ParseFails(cause: Cause)

  datatype RouteResult = Unmatched | Route(status: int, wantsCgi: bool) | RouteFails(cause: Cause)

  /** The kernel's answers for one entry and, when the request is processed, the results of
      parsing, routing and building the response. `descriptor` is what accept or pipe
      returns. */
  datatype Answer = Answer(
    hangup: bool, readable: bool, writable: bool, other: bool,
    received: Received, descriptor: int, exitFailure: bool,
    parse: ParseResult, route: RouteResult, response: string)

  predicate Ready(a: Answer) {
    a.hangup || a.readable || a.writable || a.other
  }

  datatype Outcome = Alive(state: State) | Dead(state: State, cause: Cause)

  // Lookups.

  /** The position of the first entry for `fd`, or NPOS. */
  function Pos(pfds: seq<PollFd>, fd: int): (p: int)
    ensures NPOS <= p < |pfds|
    ensures p != NPOS ==> pfds[p].fd == fd
  {
    if pfds == [] then NPOS
    else if pfds[0].fd == fd then 0
    else if Pos(pfds[1..], fd) == NPOS then NPOS else Pos(pfds[1..], fd) + 1
  }

  lemma HasElement(s: set<int>)
    ensures s == {} || exists x :: x in s
  {
    if forall x :: x !in s {
      assert s == {};
    }
  }

  ghost predicate IsLeast(s: set<int>, k: int) {
    k in s && forall j :: j in s ==> k <= j
  }

  lemma LeastExists(s: set<int>)
    requires s != {}
    ensures exists k :: IsLeast(s, k)
    decreases s
  {
    HasElement(s);
    var x :| x in s;
    var rest := s - {x};
    if rest == {} {
      assert s == {x};
      assert IsLeast(s, x);
    } else {
      LeastExists(rest);
      var k :| IsLeast(rest, k);
      assert s == rest + {x};
      assert IsLeast(s, if x < k then x else k);
    }
  }

  function Least(s: set<int>): (k: int)
    requires s != {}
    ensures IsLeast(s, k)
  {
    LeastExists(s);
    var k :| k in s && forall j :: j in s ==> k <= j;
    k
  }

  /** The keys of a std::map in iteration order. */
  function SortedKeys(s: set<int>): (keys: seq<int>)
    ensures forall k :: k in keys <==> k in s
    decreases s
  {
    if s == {} then [] else [Least(s)] + SortedKeys(s - {Least(s)})
  }

  lemma {:induction false} SortedKeysAscend(s: set<int>)
    ensures forall i, j :: 0 <= i < j < |SortedKeys(s)| ==> SortedKeys(s)[i] < SortedKeys(s)[j]
    decreases s
  {
    if s != {} {
      var rest := s - {Least(s)};
      SortedKeysAscend(rest);
      assert forall j :: 0 <= j < |SortedKeys(rest)| ==> SortedKeys(rest)[j] in SortedKeys(rest);
    }
  }

  predicate OwnsPipe(c: Conn, fd: int) {
    c.cgi.Some? && c.cgi.value.readFd == fd
  }

  /** The first client, in map order, whose CGI pipe is `fd`. */
  function FirstOwner(clients: map<int, Conn>, keys: seq<int>, fd: int): (owner: Option<int>)
    requires forall i :: 0 <= i < |keys| ==> keys[i] in clients
    ensures owner.Some? ==> owner.value in keys && owner.value in clients && OwnsPipe(clients[owner.value], fd)
    ensures owner.None? ==> forall i :: 0 <= i < |keys| ==> !OwnsPipe(clients[keys[i]], fd)
  {
    if keys == [] then None
    else if OwnsPipe(clients[keys[0]], fd) then Some(keys[0])
    else FirstOwner(clients, keys[1..], fd)
  }

  function Owner(s: State, fd: int): (owner: Option<int>)
    ensures owner.Some? ==> owner.value in s.clients && OwnsPipe(s.clients[owner.value], fd)
    ensures owner.None? ==> forall k :: k in s.clients ==> !OwnsPipe(s.clients[k], fd)
  {
    var keys := SortedKeys(s.clients.Keys);
    assert forall k :: k in s.clients ==> k in keys;
    FirstOwner(s.clients, keys, fd)
  }

  // Handling one entry.

  function Dropping(s: State, fd: int): State {
    s.(dropped := s.dropped + [fd])
  }

  function Logging(s: State, e: Event): State {
    s.(log := s.log + [e])
  }

  function Accepting(s: State, fd: int): State {
    Logging(s.(pending := Some((fd, NewConn(s.nextId))), open := s.open + {fd}, nextId := s.nextId + 1),
        Accepted(s.nextId, fd))
  }

  /** `recv` on a client; a client with nothing to parse is dropped. */
  function Receiving(s: State, fd: int, r: Received): State
    requires fd in s.clients
  {
    var c := s.clients[fd];
    var c' := match r case Data(bytes) => c.(raw := c.raw + bytes) case Error => c.(status := SERVER_ERROR);
    var s' := s.(clients := s.clients[fd := c']);
    if c'.raw == "" then Dropping(s', fd) else s'
  }

  /** `readAndAppend` on the CGI of client `k`. */
  function ReadingPipe(s: State, k: int, r: Received): State
    requires k in s.clients && s.clients[k].cgi.Some?
  {
    var c := s.clients[k];
    var g := c.cgi.value;
    match r
    case Error =>
      Logging(s.(clients := s.clients[k := c.(cgi := Some(g.(done := true)), status := SERVER_ERROR)]),
          PipeFailed(g.readFd))
    case Data(bytes) =>
      var g' := g.(response := g.response + bytes, done := g.done || |bytes| < RECV_SIZE);
      Logging(s.(clients := s.clients[k := c.(cgi := Some(g'))]), PipeRead(g.readFd, bytes))
  }

  /** The response of a finished CGI, or the error page when it exited with failure. */
  function FinishingCgi(s: State, k: int, a: Answer): State
    requires k in s.clients && s.clients[k].cgi.Some?
  {
    var c := s.clients[k];
    var g := c.cgi.value;
    var sent :=
      if a.exitFailure then Logging(s.(clients := s.clients[k := c.(status := SERVER_ERROR)]),
          Responded(c.id, a.response))
      else Logging(s, CgiSent(c.id, g.readFd, g.response));
    Dropping(Dropping(sent, g.readFd), k)
  }

  function ReadingCgi(s: State, k: int, a: Answer): State
    requires k in s.clients && s.clients[k].cgi.Some?
  {
    var s' := ReadingPipe(s, k, a.received);
    if s'.clients[k].cgi.value.done then FinishingCgi(s', k, a) else s'
  }

  predicate NeedsParsing(c: Conn) {
    !c.parsed && c.raw != ""
  }

  /** Parsing, unless header fields are there already. */
  function Parsed(c: Conn, a: Answer): Conn {
    if c.parsed then c
    else if c.raw == "" then c.(status := NO_CONTENT)
    else match a.parse
      case ParsedTo(status, headersRead) => c.(raw := "", parsed := headersRead, status := status)
      case ParseFails(_) => c
  }

  /** Routing, unless the status is settled. */
  function Routed(c: Conn, a: Answer): Conn {
    if c.status != OK then c
    else match a.route
      case Unmatched => c.(status := NOT_FOUND)
      case Route(status, wantsCgi) => c.(status := status, routed := true, isCgi := c.isCgi || wantsCgi)
      case RouteFails(_) => c
  }

  function Processed(c: Conn, a: Answer): Conn {
    Routed(Parsed(c, a), a)
  }

  /** Why answering fails, if it does. At 204 nothing is sent. The route is read unless the
      status has an error page, and the status must be one of those with a reason phrase. */
  function Unanswerable(c: Conn): Option<Cause> {
    if c.status == NO_CONTENT then None
    else if !(NOT_FOUND <= c.status <= VERSION_NOT_SUPPORTED) && !c.routed then Some(NoRoute)
    else if c.status !in ConfigMachine.KNOWN_CODES then Some(Exception)
    else None
  }

  /** Why serving a client does not succeed, if it does not. The target is looked at before
      the status, everything else about the route behind it. */
  function Fatal(c: Conn, a: Answer): Option<Cause> {
    if NeedsParsing(c) && a.parse.ParseFails? then Some(a.parse.cause)
    else
      var p := Parsed(c, a);
      if a.route.RouteFails? && (p.status == OK || a.route.cause == Undefined) then Some(a.route.cause)
      else
        var q := Routed(p, a);
        if q.isCgi then None else Unanswerable(q)
  }

  /** A writable client: its request is processed and either a CGI is started for it, once,
      or it is answered and dropped. */
  function Serving(s: State, fd: int, a: Answer): State
    requires fd in s.clients
  {
    var c := Processed(s.clients[fd], a);
    var s' := s.(clients := s.clients[fd := c]);
    if c.isCgi then
      if c.cgi.Some? then s'
      else
        var started := c.(cgi := Some(Cgi(a.descriptor, "", false)));
        Logging(s'.(clients := s.clients[fd := started], open := s.open + {a.descriptor}), Spawned(c.id, a.descriptor))
    else
      Dropping(if c.status == NO_CONTENT then s' else Logging(s', Responded(c.id, a.response)), fd)
  }

  function Served(s: State, fd: int, a: Answer): Outcome
    requires fd in s.clients
  {
    match Fatal(s.clients[fd], a)
    case Some(cause) => Dead(s, cause)
    case None => Alive(Serving(s, fd, a))
  }

  /** Handling entry `i`. A descriptor without a connection is a null pointer. */
  function Entry(s: State, i: nat, a: Answer): (o: Outcome)
    requires i < |s.pfds|
    ensures o.state.pfds == s.pfds && o.state.listener == s.listener && (o.Dead? ==> o.state == s)
  {
    var fd := s.pfds[i].fd;
    if a.hangup then Alive(Dropping(s, fd))
    else if a.readable then
      if fd == s.listener then Alive(Accepting(s, a.descriptor))
      else if Owner(s, fd).Some? then Alive(ReadingCgi(s, Owner(s, fd).value, a))
      else if fd in s.clients then Alive(Receiving(s, fd, a.received))
      else Dead(s, NoConnection)
    else if a.writable then
      if fd in s.clients then Served(s, fd, a) else Dead(s, NoConnection)
    else Alive(s)
  }

  /** Handling the entries from `i` on. Nothing changes the vector meanwhile. */
  function Dispatch(s: State, i: nat, answers: seq<Answer>): (o: Outcome)
    requires i <= |s.pfds| && |answers| == |s.pfds|
    ensures o.state.pfds == s.pfds && o.state.listener == s.listener
    decreases |s.pfds| - i
  {
    if i == |s.pfds| then Alive(s)
    else match Entry(s, i, answers[i])
      case Dead(s', cause) => Dead(s', cause)
      case Alive(s') => Dispatch(s', i + 1, answers)
  }

  // The end of a round.

  /** Erasing the first entry for `fd`. */
  function WithoutEntry(pfds: seq<PollFd>, fd: int): seq<PollFd> {
    var p := Pos(pfds, fd);
    if p == NPOS then pfds else pfds[..p] + pfds[p + 1..]
  }

  /** Deleting a connection closes its socket; a pipe is never closed. */
  function DropOne(s: State, fd: int): State {
    var s' := s.(pfds := WithoutEntry(s.pfds, fd));
    if fd in s.clients then s'.(clients := s.clients - {fd}, open := s.open - {fd}) else s'
  }

  /** Emptying the drop stack, whose top is its last element. */
  function Deleted(s: State): State
    decreases |s.dropped|
  {
    if s.dropped == [] then s
    else
      var fd := s.dropped[|s.dropped| - 1];
      Deleted(DropOne(s, fd).(dropped := s.dropped[..|s.dropped| - 1]))
  }

  function WithConnection(s: State): State {
    if s.pending.None? then s
    else
      var (fd, c) := s.pending.value;
      s.(pfds := s.pfds + [PollFd(fd, true)], clients := if fd in s.clients then s.clients else s.clients[fd := c])
  }

  /** Adding the pipe of client `k` unless it has been added. */
  function WithPipe(s: State, k: int): State
    requires k in s.clients
  {
    var c := s.clients[k];
    if c.cgi.Some? && !c.cgiAdded then
      s.(pfds := s.pfds + [PollFd(c.cgi.value.readFd, false)], clients := s.clients[k := c.(cgiAdded := true)])
    else s
  }

  function WithPipes(s: State, keys: seq<int>): State
    requires forall i :: 0 <= i < |keys| ==> keys[i] in s.clients
    decreases |keys|
  {
    if keys == [] then s else WithPipes(WithPipe(s, keys[0]), keys[1..])
  }

  function Added(s: State): State {
    var s' := WithConnection(s);
    WithPipes(s', SortedKeys(s'.clients.Keys))
  }

  predicate AnyReady(answers: seq<Answer>) {
    exists i :: 0 <= i < |answers| && Ready(answers[i])
  }

  /** One round of the loop. */
  function Round(s: State, answers: seq<Answer>): Outcome
    requires |answers| == |s.pfds|
  {
    var s0 := s.(pending := None);
    if !AnyReady(answers) then Alive(s0)
    else match Dispatch(s0, 0, answers)
      case Dead(s', cause) => Dead(s', cause)
      case Alive(s') => Alive(Added(Deleted(s')))
  }

  /** A run: the answers of poll, round by round. */
  function Run(s: State, rounds: seq<seq<Answer>>): Outcome
    requires Fits(s, rounds)
    decreases |rounds|
  {
    if rounds == [] then Alive(s)
    else match Round(s, rounds[0])
      case Dead(s', cause) => Dead(s', cause)
      case Alive(s') => Run(s', rounds[1..])
  }

  /** Every round answers for exactly the entries of the vector it finds. */
  predicate Fits(s: State, rounds: seq<seq<Answer>>)
    decreases |rounds|
  {
    rounds != [] ==>
      && |rounds[0]| == |s.pfds|
      && (Round(s, rounds[0]).Alive? ==> Fits(Round(s, rounds[0]).state, rounds[1..]))
  }

  function Initial(listener: int): State {
    State(listener, [PollFd(listener, false)], map[], [], None, {listener}, 0, [])
  }
}
