/** The poll loop as it is written: handlers that record what is to be dropped and added, two
    passes that carry it out at the end of a round, and the loop over the vector that counts
    the entries still to be handled. Every method does what its step of the state machine
    says. */
module PollerModel {
  import opened CppStrings
  import ConfigMachine
  import opened PollerState
  import opened PollerInvariant
  import opened PollerRounds
  import opened PollerOrphans

  // Searching.

  lemma {:induction false} PosIsFirst(pfds: seq<PollFd>, fd: int, p: nat)
    requires p < |pfds| && pfds[p].fd == fd && forall a :: 0 <= a < p ==> pfds[a].fd != fd
    ensures Pos(pfds, fd) == p
  {
    if p > 0 {
      assert pfds[0].fd != fd;
      PosIsFirst(pfds[1..], fd, p - 1);
    }
  }

  lemma {:induction false} FirstOwnerIsFirst(clients: map<int, Conn>, keys: seq<int>, fd: int, p: nat)
    requires forall i :: 0 <= i < |keys| ==> keys[i] in clients
    requires p < |keys| && OwnsPipe(clients[keys[p]], fd) && forall i :: 0 <= i < p ==> !OwnsPipe(clients[keys[i]], fd)
    ensures FirstOwner(clients, keys, fd) == Some(keys[p])
  {
    if p > 0 {
      assert !OwnsPipe(clients[keys[0]], fd);
      FirstOwnerIsFirst(clients, keys[1..], fd, p - 1);
    }
  }

  /** The first owner in map order is the smallest descriptor that owns the pipe. */
  lemma FirstOwnerIsLeast(clients: map<int, Conn>, fd: int, p: nat)
    requires var keys := SortedKeys(clients.Keys);
             && p < |keys| && forall i :: 0 <= i < p ==> keys[i] in clients && !OwnsPipe(clients[keys[i]], fd)
    ensures forall k :: k in clients && OwnsPipe(clients[k], fd) ==> SortedKeys(clients.Keys)[p] <= k
  {
    var keys := SortedKeys(clients.Keys);
    SortedKeysAscend(clients.Keys);
    forall k | k in clients && OwnsPipe(clients[k], fd)
      ensures keys[p] <= k
    {
      assert k in keys;
      var i :| 0 <= i < |keys| && keys[i] == k;
      assert i >= p;
    }
  }

  /** The number of entries from `i` on that poll reported events for. */
  function ReadyFrom(answers: seq<Answer>, i: nat): (n: nat)
    requires i <= |answers|
    decreases |answers| - i
  {
    if i == |answers| then 0 else (if Ready(answers[i]) then 1 else 0) + ReadyFrom(answers, i + 1)
  }

  lemma {:induction false} ReadyFromZero(answers: seq<Answer>, i: nat)
    requires i <= |answers|
    ensures ReadyFrom(answers, i) == 0 <==> forall j :: i <= j < |answers| ==> !Ready(answers[j])
    decreases |answers| - i
  {
    if i < |answers| {
      ReadyFromZero(answers, i + 1);
    }
  }

  class Poller {
    const listener: int
    var pfds: seq<PollFd>
    var clients: map<int, Conn>
    var droppedFds: seq<int>
    var newConnection: Option<(int, Conn)>
    var accepted: nat
    ghost var open: set<int>
    ghost var log: seq<Event>

    ghost function View(): State
      reads this
    {
      State(listener, pfds, clients, droppedFds, newConnection, open, accepted, log)
    }

    /** `_initPoller` with the descriptor of the listening socket. */
    constructor (socket: int)
      ensures View() == Initial(socket)
    {
      listener := socket;
      pfds := [PollFd(socket, false)];
      clients := map[];
      droppedFds := [];
      newConnection := None;
      accepted := 0;
      open := {socket};
      log := [];
    }

    // Handlers.

    method GetNewConnection(a: Answer)
      modifies this
      ensures View() == Accepting(old(View()), a.descriptor)
    {
      var connection := NewConn(accepted);
      newConnection := Some((a.descriptor, connection));
      open := open + {a.descriptor};
      log := log + [Accepted(accepted, a.descriptor)];
      accepted := accepted + 1;
    }

    method ReadConnectionData(fd: int, a: Answer)
      requires fd in clients
      modifies this
      ensures View() == Receiving(old(View()), fd, a.received)
    {
      var connection := clients[fd];
      match a.received {
        case Data(bytes) => connection := connection.(raw := connection.raw + bytes);
        case Error => connection := connection.(status := SERVER_ERROR);
      }
      clients := clients[fd := connection];
      if connection.raw == "" {
        droppedFds := droppedFds + [fd];
      }
    }

    /** The search through the clients that `_checkIfCGIFd` and `_readCGIData` both make. */
    method FindCgiClient(fd: int) returns (owner: Option<int>)
      ensures owner == Owner(View(), fd)
      ensures owner.Some? ==> forall k :: k in clients && OwnsPipe(clients[k], fd) ==> owner.value <= k
    {
      var keys := SortedKeys(clients.Keys);
      assert forall k :: k in clients ==> k in keys;
      var i := 0;
      while i < |keys|
        invariant 0 <= i <= |keys|
        invariant forall j :: 0 <= j < |keys| ==> keys[j] in clients
        invariant forall j :: 0 <= j < i ==> !OwnsPipe(clients[keys[j]], fd)
      {
        var connection := clients[keys[i]];
        if connection.cgi.Some? && connection.cgi.value.readFd == fd {
          FirstOwnerIsFirst(clients, keys, fd, i);
          FirstOwnerIsLeast(clients, fd, i);
          return Some(keys[i]);
        }
        i := i + 1;
      }
      return None;
    }

    method CheckIfCgiFd(fd: int) returns (found: bool)
      ensures found <==> exists k :: k in clients && OwnsPipe(clients[k], fd)
    {
      var owner := FindCgiClient(fd);
      found := owner.Some?;
    }

    /** `readAndAppend` of the CGI of client `k`. */
    method ReadAndAppend(k: int, r: Received)
      requires k in clients && clients[k].cgi.Some?
      modifies this
      ensures View() == ReadingPipe(old(View()), k, r)
    {
      var connection := clients[k];
      var cgi := connection.cgi.value;
      match r {
        case Error =>
          connection := connection.(cgi := Some(cgi.(done := true)), status := SERVER_ERROR);
          log := log + [PipeFailed(cgi.readFd)];
        case Data(bytes) =>
          cgi := cgi.(response := cgi.response + bytes);
          if |bytes| < RECV_SIZE {
            cgi := cgi.(done := true);
          }
          connection := connection.(cgi := Some(cgi));
          log := log + [PipeRead(cgi.readFd, bytes)];
      }
      clients := clients[k := connection];
    }

    method ReadCgiData(fd: int, a: Answer)
      requires Owner(View(), fd).Some?
      modifies this
      ensures View() == ReadingCgi(old(View()), Owner(old(View()), fd).value, a)
    {
      var owner := FindCgiClient(fd);
      ReadOwnCgiData(owner.value, a);
    }

    /** What `_readCGIData` does for the client it has found. */
    method ReadOwnCgiData(k: int, a: Answer)
      requires k in clients && clients[k].cgi.Some?
      modifies this
      ensures View() == ReadingCgi(old(View()), k, a)
    {
      ReadAndAppend(k, a.received);
      if clients[k].cgi.value.done {
        FinishCgi(k, a);
      }
    }

    /** What `_readCGIData` does once the CGI is done. */
    method FinishCgi(k: int, a: Answer)
      requires k in clients && clients[k].cgi.Some?
      modifies this
      ensures View() == FinishingCgi(old(View()), k, a)
    {
      var connection := clients[k];
      var cgi := connection.cgi.value;
      if a.exitFailure {
        clients := clients[k := connection.(status := SERVER_ERROR)];
        log := log + [Responded(connection.id, a.response)];
      } else {
        log := log + [CgiSent(connection.id, cgi.readFd, cgi.response)];
      }
      droppedFds := droppedFds + [cgi.readFd];
      droppedFds := droppedFds + [k];
    }

    method Parse(fd: int, a: Answer) returns (failure: Option<Cause>)
      requires fd in clients
      modifies this`clients
      ensures failure == if NeedsParsing(old(clients)[fd]) && a.parse.ParseFails? then Some(a.parse.cause) else None
      ensures failure.None? ==> clients == old(clients)[fd := Parsed(old(clients)[fd], a)]
    {
      var connection := clients[fd];
      if !connection.parsed {
        if connection.raw != "" {
          match a.parse {
            case ParsedTo(status, headersRead) =>
              connection := connection.(raw := "", parsed := headersRead, status := status);
            case ParseFails(cause) =>
              return Some(cause);
          }
        } else {
          connection := connection.(status := NO_CONTENT);
        }
      }
      clients := clients[fd := connection];
      return None;
    }

    method MatchRoute(fd: int, a: Answer) returns (failure: Option<Cause>)
      requires fd in clients
      modifies this`clients
      ensures failure == if a.route.RouteFails? && (old(clients)[fd].status == OK || a.route.cause == Undefined)
                         then Some(a.route.cause) else None
      ensures failure.None? ==> clients == old(clients)[fd := Routed(old(clients)[fd], a)]
    {
      var connection := clients[fd];
      if a.route == RouteFails(Undefined) {
        return Some(Undefined);
      }
      if connection.status == OK {
        match a.route {
          case Unmatched =>
            connection := connection.(status := NOT_FOUND);
          case Route(status, wantsCgi) =>
            connection := connection.(status := status, routed := true, isCgi := connection.isCgi || wantsCgi);
          case RouteFails(cause) =>
            return Some(cause);
        }
      }
      clients := clients[fd := connection];
      return None;
    }

    method InitAndExecCgi(fd: int, a: Answer)
      requires fd in clients
      modifies this`clients, this`open, this`log
      ensures var c := old(clients)[fd];
              if c.cgi.Some? then View() == old(View())
              else
                && clients == old(clients)[fd := c.(cgi := Some(Cgi(a.descriptor, "", false)))]
                && open == old(open) + {a.descriptor} && log == old(log) + [Event.Spawned(c.id, a.descriptor)]
    {
      var connection := clients[fd];
      if connection.cgi.None? {
        clients := clients[fd := connection.(cgi := Some(Cgi(a.descriptor, "", false)))];
        open := open + {a.descriptor};
        log := log + [Event.Spawned(connection.id, a.descriptor)];
      }
    }

    /** Building the response dereferences the route, unless there is an error page for the
        status or nothing to send, and raises an exception for a status without a reason. */
    method Respond(fd: int, a: Answer) returns (failure: Option<Cause>)
      requires fd in clients
      modifies this`log
      ensures failure == Unanswerable(clients[fd])
      ensures log == if failure.None? && clients[fd].status != NO_CONTENT
                     then old(log) + [Responded(clients[fd].id, a.response)] else old(log)
    {
      var connection := clients[fd];
      if connection.status == NO_CONTENT {
        return None;
      }
      if !(NOT_FOUND <= connection.status <= VERSION_NOT_SUPPORTED) {
        if !connection.routed {
          return Some(NoRoute);
        }
      }
      if connection.status !in ConfigMachine.KNOWN_CODES {
        return Some(Exception);
      }
      log := log + [Responded(connection.id, a.response)];
      return None;
    }

    /** A client that can be written to. */
    method Serve(fd: int, a: Answer) returns (failure: Option<Cause>)
      requires fd in clients
      modifies this
      ensures failure == Fatal(old(clients)[fd], a)
      ensures failure.None? ==> View() == Serving(old(View()), fd, a)
      ensures failure.Some? ==> log == old(log) && accepted == old(accepted)
    {
      failure := Parse(fd, a);
      if failure.Some? {
        return;
      }
      failure := MatchRoute(fd, a);
      if failure.Some? {
        return;
      }
      assert clients == old(clients)[fd := Processed(old(clients)[fd], a)];
      if clients[fd].isCgi {
        ghost var started := clients[fd].(cgi := Some(Cgi(a.descriptor, "", false)));
        assert clients[fd := started] == old(clients)[fd := started];
        InitAndExecCgi(fd, a);
      } else {
        failure := Respond(fd, a);
        if failure.None? {
          droppedFds := droppedFds + [fd];
        }
      }
    }

    // The end of a round.

    method DeletePollFds()
      modifies this
      ensures View() == Deleted(old(View()))
      ensures Distinct(old(pfds)) ==> View() == Filtered(old(View()))
    {
      while droppedFds != []
        invariant Deleted(View()) == Deleted(old(View()))
        decreases |droppedFds|
      {
        DeleteTop();
      }
      if Distinct(old(pfds)) {
        DeletionFilters(old(View()));
      }
    }

    /** Carrying out the topmost request of the drop stack. */
    method DeleteTop()
      requires droppedFds != []
      modifies this
      ensures var s := old(View());
              View() == DropOne(s, s.dropped[|s.dropped| - 1]).(dropped := s.dropped[..|s.dropped| - 1])
    {
      var fd := droppedFds[|droppedFds| - 1];
      ErasePollFd(fd);
      if fd in clients {
        clients := clients - {fd};
        open := open - {fd};
      }
      droppedFds := droppedFds[..|droppedFds| - 1];
    }

    /** Removing the first entry for `fd` from the vector. */
    method ErasePollFd(fd: int)
      modifies this`pfds
      ensures pfds == WithoutEntry(old(pfds), fd)
    {
      PosFinds(pfds, fd);
      var it := 0;
      while it < |pfds|
        invariant 0 <= it <= |pfds| && pfds == old(pfds)
        invariant forall a :: 0 <= a < it ==> pfds[a].fd != fd
      {
        if pfds[it].fd == fd {
          PosIsFirst(pfds, fd, it);
          pfds := pfds[..it] + pfds[it + 1..];
          return;
        }
        it := it + 1;
      }
    }

    method AddPollFds()
      modifies this
      ensures View() == Added(old(View()))
    {
      AddConnection();
      var keys := SortedKeys(clients.Keys);
      assert View() == WithConnection(old(View()));
      assert keys[0..] == keys;
      var i := 0;
      while i < |keys|
        invariant 0 <= i <= |keys|
        invariant forall j :: 0 <= j < |keys| ==> keys[j] in clients
        invariant WithPipes(View(), keys[i..]) == Added(old(View()))
      {
        assert keys[i..][1..] == keys[i + 1..] && keys[i..][0] == keys[i];
        AddPipe(keys[i]);
        i := i + 1;
      }
    }

    method AddConnection()
      modifies this
      ensures View() == WithConnection(old(View()))
    {
      if newConnection.Some? {
        var (fd, connection) := newConnection.value;
        pfds := pfds + [PollFd(fd, true)];
        if fd !in clients {
          clients := clients[fd := connection];
        }
      }
    }

    method AddPipe(k: int)
      requires k in clients
      modifies this
      ensures View() == WithPipe(old(View()), k) && clients.Keys == old(clients.Keys)
    {
      var connection := clients[k];
      if connection.cgi.Some? && !connection.cgiAdded {
        pfds := pfds + [PollFd(connection.cgi.value.readFd, false)];
        clients := clients[k := connection.(cgiAdded := true)];
      }
    }

    // The loop.

    /** Handling entry `idx`; the result tells why the loop does not go on. */
    method HandleEntry(idx: nat, a: Answer) returns (failure: Option<Cause>)
      requires idx < |pfds|
      modifies this
      ensures failure == StopOf(Entry(old(View()), idx, a))
      ensures failure.None? ==> View() == Entry(old(View()), idx, a).state
      ensures failure.Some? ==> log == old(log) && accepted == old(accepted)
    {
      var fd := pfds[idx].fd;
      failure := None;
      if a.hangup {
        droppedFds := droppedFds + [fd];
      } else if a.readable {
        if fd == listener {
          GetNewConnection(a);
        } else {
          var isPipe := CheckIfCgiFd(fd);
          assert isPipe <==> Owner(View(), fd).Some?;
          if isPipe {
            ReadCgiData(fd, a);
          } else if fd in clients {
            ReadConnectionData(fd, a);
          } else {
            failure := Some(NoConnection);
          }
        }
      } else if a.writable {
        if fd in clients {
          failure := Serve(fd, a);
        } else {
          failure := Some(NoConnection);
        }
      }
    }

    /** One round: `fdsWithEvents` is what poll returned. It always is the number of ready
        entries still ahead, so the loop never stops short of one. */
    method PollOnce(answers: seq<Answer>, fdsWithEvents: nat) returns (failure: Option<Cause>)
      requires |answers| == |pfds| && fdsWithEvents == ReadyFrom(answers, 0)
      modifies this
      ensures failure == StopOf(Round(old(View()), answers))
      ensures failure.None? ==> View() == Round(old(View()), answers).state
      ensures log == Round(old(View()), answers).state.log
    {
      newConnection := None;
      ghost var s0 := View();
      ReadyFromZero(answers, 0);
      if fdsWithEvents == 0 {
        return None;
      }
      var remaining := fdsWithEvents;
      var active := |pfds|;
      var idx := 0;
      while idx < active
        invariant 0 <= idx <= active == |pfds| == |answers|
        invariant Dispatch(View(), idx, answers) == Dispatch(s0, 0, answers)
        invariant remaining == ReadyFrom(answers, idx)
      {
        if Ready(answers[idx]) {
          if remaining == 0 {
            break;
          }
          remaining := remaining - 1;
          failure := HandleEntry(idx, answers[idx]);
          if failure.Some? {
            return;
          }
        }
        idx := idx + 1;
      }
      DeletePollFds();
      AddPollFds();
      return None;
    }

    /** The loop, as long as the kernel has answers. */
    method PollPort(rounds: seq<seq<Answer>>) returns (failure: Option<Cause>)
      requires Fits(View(), rounds)
      modifies this
      ensures failure == StopOf(Run(old(View()), rounds))
      ensures failure.None? ==> View() == Run(old(View()), rounds).state
      ensures log == Run(old(View()), rounds).state.log
    {
      var n := 0;
      while n < |rounds|
        invariant 0 <= n <= |rounds|
        invariant Fits(View(), rounds[n..])
        invariant Run(View(), rounds[n..]) == Run(old(View()), rounds)
      {
        assert rounds[n..][0] == rounds[n] && rounds[n..][1..] == rounds[n + 1..];
        failure := PollOnce(rounds[n], ReadyFrom(rounds[n], 0));
        if failure.Some? {
          return;
        }
        n := n + 1;
      }
      return None;
    }
  }
}
