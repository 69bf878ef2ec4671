/** Runs of the poll loop in which every request is one that can be served: what the loop then
    does is told from the bytes that clients send. */
module PollerService {
  import opened CppStrings
  import opened PollerState
  import opened PollerInvariant
  import opened PollerRounds
  import opened PollerOrphans
  import opened PollerRuns
  import opened PollerClients
  import opened PollerRequests
  import opened Pipeline
  import opened PipelineSafety
  import opened PipelineReplies
  import ConfigRoundTrip
  import RequestRoundTrip
  import RequestSpec
  import Routing
  import ConfigMachine

  // One client.

  /** A client that is still waiting for its request to be looked at, or for its CGI. */
  predicate Tame(c: Conn) {
    c.status == OK && if c.parsed then c.isCgi else !c.routed && !c.isCgi
  }

  /** `text` is a well-formed request that the servers can serve, and `a` holds the results of
      processing it. */
  ghost predicate IsServed(text: string, a: Answer, servers: seq<ConfigRoundTrip.ServerTree>,
      w: RequestRoundTrip.WireRequest, uninitialised: int, disk: Disk)
    requires servers != []
  {
    && RequestRoundTrip.WellFormed(w) && text == RequestRoundTrip.Text(w)
    && !Unservable(w, uninitialised, servers) && Processes(a, text, uninitialised, servers, disk)
  }

  /** What a writable client's request gets: the results of processing what it has sent, which
      is a request that can be served; no route when it has sent nothing; and its CGI's route
      again when it has been parsed. */
  ghost predicate Genuine(c: Conn, a: Answer, servers: seq<ConfigRoundTrip.ServerTree>)
    requires servers != []
  {
    if c.parsed then a.route == Route(OK, true)
    else if c.raw == "" then a.route == Unmatched
    else exists w, uninitialised, disk :: IsServed(c.raw, a, servers, w, uninitialised, disk)
  }

  /** That a request for a CGI is matched to the same end when it is matched again. */
  lemma {:induction false} CgiIsMatchedAgain(q: RequestSpec.RequestData, servers: seq<ConfigRoundTrip.ServerTree>,
      disk: Disk, later: Disk)
    requires servers != []
    requires var h := Matched(Begun(OK), q, servers, disk); h.Done? && h.exchange.cgi
    ensures var y := Matched(Begun(OK), q, servers, disk).exchange;
            ResultOfMatching(Matched(y, q, servers, later)) == Route(OK, true)
  {
    var m := Routing.MatchingFor(servers, OK, q.headers, q.target);
    var y := Matched(Begun(OK), q, servers, disk).exchange;
    CgiExactly(Begun(OK), q, m.route, m.maxBodySize, disk);
    HandledStatus(Begun(OK), q, m.route.value, m.maxBodySize, disk);
    HandledAgain(y, q, m.route.value, m.maxBodySize, later);
  }

  lemma {:induction false} HandledAgain(y: Exchange, q: RequestSpec.RequestData, route: ConfigMachine.Route, limit: int,
      disk: Disk)
    requires y.status == OK && y.cgi && q.verb == "GET" && Admitted(q, route, limit)
    requires q.filename != "" && Find(q.filename, '.') != NPOS
        && q.filename[Find(q.filename, '.')..] in route.cgiExtensions
    ensures var h := Handled(y, q, Some(route), limit, disk);
            h.Some? && h.value.status == OK && h.value.cgi
  {
  }

  /** And that nothing is matched for a client that has sent nothing. */
  lemma NothingIsUnmatched(servers: seq<ConfigRoundTrip.ServerTree>, disk: Disk)
    requires servers != []
    ensures ResultOfMatching(Matched(Begun(PollerState.NO_CONTENT), RequestSpec.Unparsed(""), servers, disk))
         == Unmatched
  {
  }

  lemma {:induction false} CgiIsAccepted(q: RequestSpec.RequestData, servers: seq<ConfigRoundTrip.ServerTree>,
      disk: Disk)
    requires servers != []
    ensures match Matched(Begun(q.status), q, servers, disk)
            case Done(y, Some(_), _) => q.status == OK && (y.cgi ==> y.status == OK)
            case _ => true
  {
    if q.target != "" {
      var m := Routing.MatchingFor(servers, q.status, q.headers, q.target);
      if m.route.Some? && Handled(Begun(OK), q, m.route, m.maxBodySize, disk).Some? {
        HandledStatus(Begun(OK), q, m.route.value, m.maxBodySize, disk);
      }
    }
  }

  /** A request that is matched to a CGI has header fields. */
  lemma {:induction false} CgiResults(text: string, a: Answer, servers: seq<ConfigRoundTrip.ServerTree>,
      w: RequestRoundTrip.WireRequest, uninitialised: int, disk: Disk)
    requires servers != [] && IsServed(text, a, servers, w, uninitialised, disk)
    ensures a.parse.ParsedTo?
    ensures a.route.Route? && a.route.wantsCgi ==> a.parse == ParsedTo(OK, true) && a.route.status == OK
  {
    ParsesUnlessEndless(w, uninitialised);
    var q := RequestSpec.Parse(RequestSpec.Unparsed(text), uninitialised).request;
    CgiIsAccepted(q, servers, disk);
    RequestRoundTrip.ParsedAsWritten(w, uninitialised);
    if a.route.Route? && a.route.wantsCgi {
      assert q.status == OK;
      assert "Host" in q.headers;
    }
  }

  /** Serving such a client succeeds, and leaves it to be dropped or to wait for its CGI. */
  lemma {:induction false} GenuineIsServed(c: Conn, a: Answer, servers: seq<ConfigRoundTrip.ServerTree>)
    requires servers != [] && Paged(servers) && Tame(c) && Genuine(c, a, servers)
    ensures Fatal(c, a).None?
    ensures Processed(c, a).isCgi ==> Tame(Processed(c, a))
  {
    if !c.parsed && c.raw != "" {
      var w, uninitialised, disk :| IsServed(c.raw, a, servers, w, uninitialised, disk);
      ServedInVainExactly(c, a, w, uninitialised, servers, disk);
      CgiResults(c.raw, a, servers, w, uninitialised, disk);
      ProcessedToCgi(c, a);
    }
  }

  lemma {:induction false} ProcessedToCgi(c: Conn, a: Answer)
    requires Tame(c) && !c.parsed && c.raw != "" && a.parse.ParsedTo?
    requires a.route.Route? && a.route.wantsCgi ==> a.parse == ParsedTo(OK, true) && a.route.status == OK
    ensures Processed(c, a).isCgi ==> Tame(Processed(c, a))
  {
  }

  // All clients.

  ghost predicate AllTame(s: State) {
    forall k :: k in s.clients && k !in s.dropped ==> Tame(s.clients[k])
  }

  /** Entry `i` is handled without incident: nobody leaves a running CGI behind, no client's
      socket fails, and whoever can be written to has sent a request that can be served. */
  ghost predicate Peaceful(s: State, i: nat, a: Answer, servers: seq<ConfigRoundTrip.ServerTree>)
    requires i < |s.pfds| && servers != []
  {
    var fd := s.pfds[i].fd;
    && !Abandons(s, i, a)
    && (fd in s.clients && !a.hangup && a.readable ==> a.received.Data?)
    && (fd in s.clients && !a.hangup && !a.readable && a.writable ==> Genuine(s.clients[fd], a, servers))
  }

  ghost predicate PeacefulFrom(s: State, i: nat, answers: seq<Answer>, servers: seq<ConfigRoundTrip.ServerTree>)
    requires i <= |s.pfds| == |answers| && servers != []
    decreases |s.pfds| - i
  {
    i < |s.pfds| ==>
      && Peaceful(s, i, answers[i], servers)
      && (Entry(s, i, answers[i]).Alive? ==> PeacefulFrom(Entry(s, i, answers[i]).state, i + 1, answers, servers))
  }

  ghost predicate PeacefulRun(s: State, rounds: seq<seq<Answer>>, servers: seq<ConfigRoundTrip.ServerTree>)
    requires Fits(s, rounds) && servers != []
    decreases |rounds|
  {
    rounds != [] ==>
      && PeacefulFrom(s.(pending := None), 0, rounds[0], servers)
      && (Round(s, rounds[0]).Alive? ==> PeacefulRun(Round(s, rounds[0]).state, rounds[1..], servers))
  }

  lemma {:induction false} NotYetDropped(s: State, i: nat)
    requires Mid(s, i) && i < |s.pfds|
    ensures s.pfds[i].fd !in s.dropped
  {
    PosOfEntry(s.pfds, i);
  }

  lemma {:induction false} PeacefulSucceeds(s: State, i: nat, a: Answer, servers: seq<ConfigRoundTrip.ServerTree>)
    requires Mid(s, i) && i < |s.pfds| && servers != [] && Paged(servers)
    requires AllTame(s) && Peaceful(s, i, a, servers)
    ensures !PollerOrphans.Fails(s, i, a)
  {
    var fd := s.pfds[i].fd;
    NotYetDropped(s, i);
    if fd in s.clients && !a.hangup && !a.readable && a.writable {
      GenuineIsServed(s.clients[fd], a, servers);
    }
  }

  lemma {:induction false} OwnClientStaysTame(s: State, i: nat, a: Answer, servers: seq<ConfigRoundTrip.ServerTree>)
    requires Mid(s, i) && i < |s.pfds| && servers != [] && Paged(servers) && Entry(s, i, a).Alive?
    requires AllTame(s) && Peaceful(s, i, a, servers) && s.pfds[i].fd in s.clients
    ensures var t := Entry(s, i, a).state; var fd := s.pfds[i].fd;
            fd in t.clients && fd !in t.dropped ==> Tame(t.clients[fd])
  {
    var fd := s.pfds[i].fd;
    NotYetDropped(s, i);
    ClientEntryIsItsOwn(s, i);
    if a.hangup {
    } else if a.readable {
      ReceivingStaysTame(s, fd, a.received);
    } else if a.writable {
      GenuineIsServed(s.clients[fd], a, servers);
      ServingStaysTame(s, fd, a);
    }
  }

  lemma {:induction false} ReceivingStaysTame(s: State, fd: int, r: Received)
    requires fd in s.clients && Tame(s.clients[fd]) && r.Data?
    ensures fd in Receiving(s, fd, r).clients && Tame(Receiving(s, fd, r).clients[fd])
  {
  }

  lemma {:induction false} ClientEntryIsItsOwn(s: State, i: nat)
    requires Mid(s, i) && i < |s.pfds| && s.pfds[i].fd in s.clients
    ensures Owner(s, s.pfds[i].fd).None? && s.pfds[i].fd != s.listener
  {
    PipesAreNoClients(s, i);
    assert ClientOk(s, i, s.pfds[i].fd);
    PosOfEntry(s.pfds, 0);
  }

  lemma {:induction false} ServingStaysTame(s: State, fd: int, a: Answer)
    requires fd in s.clients && (Processed(s.clients[fd], a).isCgi ==> Tame(Processed(s.clients[fd], a)))
    ensures fd in Serving(s, fd, a).clients
    ensures fd !in Serving(s, fd, a).dropped ==> Tame(Serving(s, fd, a).clients[fd])
  {
  }

  lemma {:induction false} OwnerStaysTame(s: State, k: int, a: Answer)
    requires k in s.clients && s.clients[k].cgi.Some? && Tame(s.clients[k])
    ensures var t := ReadingCgi(s, k, a);
            k in t.clients && k !in t.dropped ==> Tame(t.clients[k])
  {
  }

  lemma {:induction false} EntryStaysTame(s: State, i: nat, a: Answer, servers: seq<ConfigRoundTrip.ServerTree>, k: int)
    requires Mid(s, i) && i < |s.pfds| && servers != [] && Paged(servers) && Entry(s, i, a).Alive?
    requires AllTame(s) && Peaceful(s, i, a, servers)
    requires k in s.clients && k !in s.dropped && k !in Entry(s, i, a).state.dropped
    ensures k in Entry(s, i, a).state.clients && Tame(Entry(s, i, a).state.clients[k])
  {
    var fd := s.pfds[i].fd;
    EntryKeepsPipes(s, i, a);
    if k == fd {
      OwnClientStaysTame(s, i, a, servers);
    } else if Owner(s, fd) == Some(k) {
      OwnerStaysTame(s, k, a);
      PipesAreNoClients(s, i);
      assert ClientOk(s, i, k);
      SpawnedIsPipe(s.log, s.clients[k].id, fd);
      assert fd != s.listener && fd !in s.clients;
    } else {
      EntryTouches(s, i, a, k);
    }
  }

  lemma {:induction false} DroppedStay(s: State, i: nat, a: Answer, d: int)
    requires i < |s.pfds| && Entry(s, i, a).Alive? && d in s.dropped
    ensures d in Entry(s, i, a).state.dropped
  {
    var fd := s.pfds[i].fd;
    if !a.hangup && a.readable && fd != s.listener && Owner(s, fd).Some? {
      ReadFrame(s, Owner(s, fd).value, a.received);
    }
  }

  lemma {:induction false} AllStayTame(s: State, i: nat, a: Answer, servers: seq<ConfigRoundTrip.ServerTree>)
    requires Mid(s, i) && i < |s.pfds| && servers != [] && Paged(servers) && Entry(s, i, a).Alive?
    requires AllTame(s) && Peaceful(s, i, a, servers)
    ensures AllTame(Entry(s, i, a).state)
  {
    var t := Entry(s, i, a).state;
    EntryKeepsPipes(s, i, a);
    forall k | k in t.clients && k !in t.dropped
      ensures Tame(t.clients[k])
    {
      if k in s.dropped {
        DroppedStay(s, i, a, k);
      }
      EntryStaysTame(s, i, a, servers, k);
    }
  }

  lemma {:induction false} PeacefulDispatch(s: State, i: nat, answers: seq<Answer>,
      servers: seq<ConfigRoundTrip.ServerTree>)
    requires i <= |s.pfds| == |answers| && Mid(s, i) && LegalFrom(s, i, answers) && servers != [] && Paged(servers)
    requires AllTame(s) && PeacefulFrom(s, i, answers, servers)
    ensures CalmFrom(s, i, answers)
    ensures Dispatch(s, i, answers).Alive? ==> AllTame(Dispatch(s, i, answers).state)
    decreases |s.pfds| - i
  {
    if i < |s.pfds| {
      PeacefulSucceeds(s, i, answers[i], servers);
      EntryKeeps(s, i, answers[i]);
      if Entry(s, i, answers[i]).Alive? {
        AllStayTame(s, i, answers[i], servers);
        PeacefulDispatch(Entry(s, i, answers[i]).state, i + 1, answers, servers);
      }
    }
  }

  lemma {:induction false} PeacefulRound(s: State, answers: seq<Answer>, servers: seq<ConfigRoundTrip.ServerTree>)
    requires Inv(s) && |answers| == |s.pfds| && LegalRound(s, answers) && servers != [] && Paged(servers)
    requires AllTame(s) && PeacefulFrom(s.(pending := None), 0, answers, servers)
    ensures CalmRound(s, answers)
    ensures Round(s, answers).Alive? ==> AllTame(Round(s, answers).state)
  {
    var s0 := s.(pending := None);
    PeacefulDispatch(s0, 0, answers, servers);
    if AnyReady(answers) && Round(s, answers).Alive? {
      DispatchKeeps(s0, 0, answers);
      var t := Dispatch(s0, 0, answers).state;
      forall k | k in Added(PollerState.Deleted(t)).clients
        ensures Tame(Added(PollerState.Deleted(t)).clients[k])
      {
        ClientsAfter(t, |s0.pfds|, k);
      }
    }
  }

  lemma {:induction false} PeacefulRunIsCalm(s: State, rounds: seq<seq<Answer>>,
      servers: seq<ConfigRoundTrip.ServerTree>)
    requires Inv(s) && AllTame(s) && Fits(s, rounds) && LegalRun(s, rounds) && servers != [] && Paged(servers)
    requires PeacefulRun(s, rounds, servers)
    ensures CalmRun(s, rounds)
    decreases |rounds|
  {
    if rounds != [] {
      PeacefulRound(s, rounds[0], servers);
      RoundKeeps(s, rounds[0]);
      if Round(s, rounds[0]).Alive? {
        PeacefulRunIsCalm(Round(s, rounds[0]).state, rounds[1..], servers);
      }
    }
  }

  /** From the start: as long as no client's socket fails, no client leaves while its CGI is
      running, and every client that is found writable has sent nothing yet or a request that
      can be served, the loop goes on, and its vector is exactly the listener, the clients and
      the pipes of their CGIs. */
  lemma {:induction false} ServableRequestsAreServed(listener: int, rounds: seq<seq<Answer>>,
      servers: seq<ConfigRoundTrip.ServerTree>)
    requires servers != [] && Paged(servers)
    requires Fits(Initial(listener), rounds) && LegalRun(Initial(listener), rounds)
    requires PeacefulRun(Initial(listener), rounds, servers)
    ensures Run(Initial(listener), rounds).Alive?
    ensures var s := Run(Initial(listener), rounds).state;
            FdSet(s.pfds) == {s.listener} + s.clients.Keys + CgiPipes(s.clients)
  {
    InitialIsInv(listener);
    PeacefulRunIsCalm(Initial(listener), rounds, servers);
    CalmLoopHead(listener, rounds);
  }
}
