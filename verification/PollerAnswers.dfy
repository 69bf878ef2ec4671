/** What a round reads, starts and sends, and whom it drops, told from the state it starts with
    and the kernel's answers, without the handlers. */
module PollerAnswers {
  import opened CppStrings
  import opened PollerState
  import opened PollerInvariant
  import opened PollerRounds
  import opened PollerOrphans
  import opened PollerRuns

  // What handling an entry is to do.

  /** A read after which the CGI is done: a short one or a failed one. */
  predicate EndsCgi(r: Received) {
    r.Error? || |r.bytes| < RECV_SIZE
  }

  function BytesOf(r: Received): string {
    match r case Data(bytes) => bytes case Error => ""
  }

  /** Reading a pipe: the read, and behind the one that ends the CGI its one answer, which is
      all that was read from the pipe, or the error page if the CGI exited with failure. */
  function PipeEvents(log: seq<Event>, id: nat, pipe: int, a: Answer): seq<Event> {
    [match a.received case Data(bytes) => PipeRead(pipe, bytes) case Error => PipeFailed(pipe)]
    + if !EndsCgi(a.received) then []
      else if a.exitFailure then [Responded(id, a.response)]
      else [CgiSent(id, pipe, BytesRead(log, pipe) + BytesOf(a.received))]
  }

  /** The status of a client behind parsing: nothing was sent, it was parsed before, or it is
      parsed now. */
  function StatusParsed(c: Conn, a: Answer): int
    requires NeedsParsing(c) ==> a.parse.ParsedTo?
  {
    if c.parsed then c.status else if c.raw == "" then NO_CONTENT else a.parse.status
  }

  predicate BecomesCgi(c: Conn, a: Answer)
    requires NeedsParsing(c) ==> a.parse.ParsedTo?
  {
    c.isCgi || (StatusParsed(c, a) == OK && a.route.Route? && a.route.wantsCgi)
  }

  function StatusServed(c: Conn, a: Answer): int
    requires NeedsParsing(c) ==> a.parse.ParsedTo?
  {
    if StatusParsed(c, a) != OK then StatusParsed(c, a)
    else match a.route
      case Unmatched => NOT_FOUND
      case Route(status, _) => status
      case RouteFails(_) => OK
  }

  /** Serving a client: its CGI is started, unless it runs, or it is answered, unless the
      status is 204. */
  function ServiceEvents(c: Conn, a: Answer): seq<Event>
    requires NeedsParsing(c) ==> a.parse.ParsedTo?
  {
    if BecomesCgi(c, a) then (if c.cgi.None? then [Event.Spawned(c.id, a.descriptor)] else [])
    else if StatusServed(c, a) == NO_CONTENT then [] else [Responded(c.id, a.response)]
  }

  predicate IsServed(s: State, j: nat, a: Answer)
    requires j < |s.pfds|
  {
    !a.hangup && !a.readable && a.writable && s.pfds[j].fd in s.clients
  }

  predicate IsPipeRead(s: State, j: nat, a: Answer)
    requires j < |s.pfds|
  {
    !a.hangup && a.readable && s.pfds[j].fd != s.listener && Owner(s, s.pfds[j].fd).Some?
  }

  predicate IsClientRead(s: State, j: nat, a: Answer)
    requires j < |s.pfds|
  {
    !a.hangup && a.readable && s.pfds[j].fd != s.listener && Owner(s, s.pfds[j].fd).None? && s.pfds[j].fd in s.clients
  }

  /** What can be observed while entry `j` is handled. */
  function EventsAt(s: State, j: nat, a: Answer): seq<Event>
    requires j < |s.pfds| && CauseAt(s, j, a).None?
  {
    var fd := s.pfds[j].fd;
    if !a.hangup && a.readable && fd == s.listener then [Accepted(s.nextId, a.descriptor)]
    else if IsPipeRead(s, j, a) then PipeEvents(s.log, s.clients[Owner(s, fd).value].id, fd, a)
    else if IsServed(s, j, a) then ServiceEvents(s.clients[fd], a)
    else []
  }

  /** Which descriptors it pushes on the drop stack: a client that hangs up, has nothing more to
      say and has said nothing, or is answered; a pipe that has ended and its client. */
  function DropsAt(s: State, j: nat, a: Answer): seq<int>
    requires j < |s.pfds| && CauseAt(s, j, a).None?
  {
    var fd := s.pfds[j].fd;
    if a.hangup then [fd]
    else if IsPipeRead(s, j, a) then (if EndsCgi(a.received) then [fd, Owner(s, fd).value] else [])
    else if IsClientRead(s, j, a) then (if s.clients[fd].raw + BytesOf(a.received) == "" then [fd] else [])
    else if IsServed(s, j, a) then (if BecomesCgi(s.clients[fd], a) then [] else [fd])
    else []
  }

  // That is what handling an entry does.

  lemma {:induction false} PipeEntryExactly(s: State, i: nat, k: int, a: Answer)
    requires Mid(s, i) && i < |s.pfds| && k in s.clients && OwnsPipe(s.clients[k], s.pfds[i].fd)
    ensures var t := ReadingCgi(s, k, a);
            var fd := s.pfds[i].fd;
            && t.log == s.log + PipeEvents(s.log, s.clients[k].id, fd, a)
            && t.dropped == s.dropped + (if EndsCgi(a.received) then [fd, k] else [])
            && k in t.clients
            && t.clients[k].status == (if a.received.Error? || (EndsCgi(a.received) && a.exitFailure) then SERVER_ERROR
                                       else s.clients[k].status)
  {
    OwnPipeEntry(s, i, k);
    PipeIsUnended(s, i, k);
    ReadThenFinished(s, k, a);
  }

  lemma {:induction false} PipeIsUnended(s: State, i: nat, k: int)
    requires Mid(s, i) && i < |s.pfds| && k in s.clients && OwnsPipe(s.clients[k], s.pfds[i].fd)
    ensures !s.clients[k].cgi.value.done && s.clients[k].cgi.value.response == BytesRead(s.log, s.pfds[i].fd)
  {
    OwnPipeEntry(s, i, k);
    assert ClientOk(s, i, k);
  }

  lemma {:induction false} ReadThenFinished(s: State, k: int, a: Answer)
    requires k in s.clients && s.clients[k].cgi.Some? && !s.clients[k].cgi.value.done
    requires s.clients[k].cgi.value.response == BytesRead(s.log, s.clients[k].cgi.value.readFd)
    ensures var t := ReadingCgi(s, k, a);
            var fd := s.clients[k].cgi.value.readFd;
            && t.log == s.log + PipeEvents(s.log, s.clients[k].id, fd, a)
            && t.dropped == s.dropped + (if EndsCgi(a.received) then [fd, k] else [])
            && k in t.clients
            && t.clients[k].status == (if a.received.Error? || (EndsCgi(a.received) && a.exitFailure) then SERVER_ERROR
                                       else s.clients[k].status)
  {
    var s1 := ReadingPipe(s, k, a.received);
    ReadFrame(s, k, a.received);
    assert s1.clients[k].cgi.value.done == EndsCgi(a.received);
    assert s1.clients[k].cgi.value.response == BytesRead(s.log, s.clients[k].cgi.value.readFd) + BytesOf(a.received);
  }

  lemma {:induction false} ServiceExactly(s: State, fd: int, a: Answer)
    requires fd in s.clients && Fatal(s.clients[fd], a).None?
    ensures NeedsParsing(s.clients[fd]) ==> a.parse.ParsedTo?
    ensures Serving(s, fd, a).log == s.log + ServiceEvents(s.clients[fd], a)
    ensures Serving(s, fd, a).dropped == s.dropped + (if BecomesCgi(s.clients[fd], a) then [] else [fd])
  {
    var c := Processed(s.clients[fd], a);
    assert c.id == s.clients[fd].id && c.cgi == s.clients[fd].cgi;
    assert c.isCgi == BecomesCgi(s.clients[fd], a) && c.status == StatusServed(s.clients[fd], a);
  }

  /** Handling an entry logs and drops exactly this. */
  lemma {:induction false} EntryExactly(s: State, i: nat, a: Answer)
    requires Mid(s, i) && i < |s.pfds| && Legal(s, i, a) && Entry(s, i, a).Alive?
    ensures CauseAt(s, i, a).None?
    ensures Entry(s, i, a).state.log == s.log + EventsAt(s, i, a)
    ensures Entry(s, i, a).state.dropped == s.dropped + DropsAt(s, i, a)
  {
    var fd := s.pfds[i].fd;
    EntryDiesExactly(s, i, a);
    if a.hangup {
    } else if a.readable {
      if fd == s.listener {
      } else if Owner(s, fd).Some? {
        PipeEntryExactly(s, i, Owner(s, fd).value, a);
      } else {
        assert BytesOf(a.received) == "" ==> s.clients[fd].raw + BytesOf(a.received) == s.clients[fd].raw;
      }
    } else if a.writable {
      ServiceExactly(s, fd, a);
    }
  }

  /** Reading a CGI's pipe at its entry: a full read is recorded and answers nothing; a short or
      failed one is followed by exactly one answer, all that was read from the pipe, or the error
      page and status 500 when the CGI exited with failure. */
  lemma {:induction false} CgiReadExactly(s: State, i: nat, a: Answer, k: int)
    requires Mid(s, i) && i < |s.pfds| && Legal(s, i, a) && !a.hangup && a.readable
    requires k in s.clients && OwnsPipe(s.clients[k], s.pfds[i].fd)
    ensures Entry(s, i, a).Alive?
    ensures var t, pipe, id := Entry(s, i, a).state, s.pfds[i].fd, s.clients[k].id;
            var read := match a.received case Data(bytes) => PipeRead(pipe, bytes) case Error => PipeFailed(pipe);
            && k in t.clients
            && if a.received.Data? && |a.received.bytes| >= RECV_SIZE then
                 t.log == s.log + [read] && t.dropped == s.dropped && t.clients[k].status == s.clients[k].status
               else
                 && t.dropped == s.dropped + [pipe, k]
                 && (!a.exitFailure ==> t.log == s.log + [read, CgiSent(id, pipe, BytesRead(s.log + [read], pipe))])
                 && (a.exitFailure ==>
                     t.log == s.log + [read, Responded(id, a.response)] && t.clients[k].status == SERVER_ERROR)
  {
    PipeOwner(s, i, k);
    PipeEntryExactly(s, i, k, a);
    PipeEventsSpelled(s.log, s.clients[k].id, s.pfds[i].fd, a);
    assert Entry(s, i, a) == Alive(ReadingCgi(s, k, a));
  }

  lemma {:induction false} PipeEventsSpelled(log: seq<Event>, id: nat, pipe: int, a: Answer)
    ensures var read := match a.received case Data(bytes) => PipeRead(pipe, bytes) case Error => PipeFailed(pipe);
            var events := PipeEvents(log, id, pipe, a);
            if a.received.Data? && |a.received.bytes| >= RECV_SIZE then events == [read]
            else if a.exitFailure then events == [read, Responded(id, a.response)]
            else events == [read, CgiSent(id, pipe, BytesRead(log + [read], pipe))]
  {
    var read := match a.received case Data(bytes) => PipeRead(pipe, bytes) case Error => PipeFailed(pipe);
    BytesReadAppend(log, read, pipe);
    assert BytesRead(log, pipe) + "" == BytesRead(log, pipe);
  }

  lemma {:induction false} PipeOwner(s: State, i: nat, k: int)
    requires Mid(s, i) && i < |s.pfds| && k in s.clients && OwnsPipe(s.clients[k], s.pfds[i].fd)
    ensures Owner(s, s.pfds[i].fd) == Some(k) && s.pfds[i].fd != s.listener && s.pfds[i].fd !in Orphans(s)
  {
    var l := Owner(s, s.pfds[i].fd).value;
    if l != k {
      PipesDiffer(s, i, k, l);
    }
    assert ClientOk(s, i, k);
    SpawnedIsPipe(s.log, s.clients[k].id, s.pfds[i].fd);
    assert Owned(s, s.pfds[i].fd);
  }

  /** What reading a client's socket leaves of it: the bytes are added at the end, and a failure
      sets status 500. */
  lemma {:induction false} ReadConnection(s: State, fd: int, r: Received)
    requires fd in s.clients
    ensures fd in Receiving(s, fd, r).clients
    ensures var c := s.clients[fd];
            Receiving(s, fd, r).clients[fd]
            == c.(raw := c.raw + BytesOf(r), status := if r.Error? then SERVER_ERROR else c.status)
  {
    assert s.clients[fd].raw + "" == s.clients[fd].raw;
  }

  /** What processing leaves of a connection: the bytes are gone once they have been parsed, the
      status is the one of parsing or, behind status 200, of routing. */
  lemma {:induction false} ProcessedConnection(c: Conn, a: Answer)
    requires Fatal(c, a).None?
    ensures NeedsParsing(c) ==> a.parse.ParsedTo?
    ensures var c' := Processed(c, a);
            && c'.id == c.id && c'.status == StatusServed(c, a) && c'.isCgi == BecomesCgi(c, a)
            && c'.raw == (if c.parsed then c.raw else "")
            && c'.parsed == (c.parsed || (c.raw != "" && a.parse.headersRead))
            && c'.routed == (c.routed || (StatusParsed(c, a) == OK && a.route.Route?))
            && c'.cgiAdded == c.cgiAdded && c'.cgi == c.cgi
  {
  }

  /** And what serving does: nothing more, but for the CGI that it may start. */
  lemma {:induction false} ServedConnection(s: State, fd: int, a: Answer)
    requires fd in s.clients && Fatal(s.clients[fd], a).None?
    ensures NeedsParsing(s.clients[fd]) ==> a.parse.ParsedTo?
    ensures fd in Serving(s, fd, a).clients
    ensures Serving(s, fd, a).clients[fd]
         == var c' := Processed(s.clients[fd], a);
            if BecomesCgi(s.clients[fd], a) && c'.cgi.None? then c'.(cgi := Some(Cgi(a.descriptor, "", false))) else c'
  {
    ProcessedConnection(s.clients[fd], a);
  }

  // The same for a round.

  /** What is observed from entry `i` on, up to the first entry that stops the loop. */
  function EventsFrom(s: State, i: nat, answers: seq<Answer>): seq<Event>
    requires i <= |s.pfds| == |answers|
    decreases |s.pfds| - i
  {
    if i == |s.pfds| || CauseAt(s, i, answers[i]).Some? then []
    else EventsAt(s, i, answers[i]) + EventsFrom(s, i + 1, answers)
  }

  function DropsFrom(s: State, i: nat, answers: seq<Answer>): seq<int>
    requires i <= |s.pfds| == |answers|
    decreases |s.pfds| - i
  {
    if i == |s.pfds| || CauseAt(s, i, answers[i]).Some? then []
    else DropsAt(s, i, answers[i]) + DropsFrom(s, i + 1, answers)
  }

  lemma {:induction false} BytesReadBeside(log: seq<Event>, more: seq<Event>, pipe: int)
    requires forall j :: 0 <= j < |more| && more[j].PipeRead? ==> more[j].pipe != pipe
    ensures BytesRead(log + more, pipe) == BytesRead(log, pipe)
    decreases |more|
  {
    if more == [] {
      assert log + more == log;
    } else {
      var front := more[..|more| - 1];
      BytesReadBeside(log, front, pipe);
      assert (log + more)[..|log + more| - 1] == log + front;
    }
  }

  lemma {:induction false} ServingKeepsIds(s: State, fd: int, a: Answer, k: int)
    requires fd in s.clients && k in s.clients
    ensures k in Serving(s, fd, a).clients && Serving(s, fd, a).clients[k].id == s.clients[k].id
  {
    assert Processed(s.clients[fd], a).id == s.clients[fd].id;
  }

  lemma {:induction false} ReadingKeepsIds(s: State, l: int, a: Answer, k: int)
    requires l in s.clients && s.clients[l].cgi.Some? && k in s.clients
    ensures k in ReadingCgi(s, l, a).clients && ReadingCgi(s, l, a).clients[k].id == s.clients[k].id
  {
    ReadFrame(s, l, a.received);
  }

  lemma {:induction false} EntryKeepsIds(s: State, i: nat, a: Answer, k: int)
    requires i < |s.pfds| && Entry(s, i, a).Alive? && k in s.clients
    ensures k in Entry(s, i, a).state.clients && Entry(s, i, a).state.clients[k].id == s.clients[k].id
  {
    var fd := s.pfds[i].fd;
    if a.hangup {
    } else if a.readable {
      if fd != s.listener && Owner(s, fd).Some? {
        ReadingKeepsIds(s, Owner(s, fd).value, a, k);
      }
    } else if a.writable {
      ServingKeepsIds(s, fd, a, k);
    }
  }

  lemma {:induction false} SameOwner(s: State, t: State, pipe: int, fd: int)
    requires SamePipes(s.clients, t.clients, pipe) && fd != pipe
    requires forall k, l ::
        k in t.clients && l in t.clients && OwnsPipe(t.clients[k], fd) && OwnsPipe(t.clients[l], fd) ==> k == l
    ensures Owner(t, fd) == Owner(s, fd)
  {
    SamePipeSameOwner(s.clients, t.clients, pipe, fd);
  }

  lemma {:induction false} OneOwner(s: State, i: nat, fd: int)
    requires Mid(s, i)
    ensures forall k, l ::
        k in s.clients && l in s.clients && OwnsPipe(s.clients[k], fd) && OwnsPipe(s.clients[l], fd) ==> k == l
  {
    forall k, l | k in s.clients && l in s.clients && OwnsPipe(s.clients[k], fd) && OwnsPipe(s.clients[l], fd)
      ensures k == l
    {
      if k != l {
        PipesDiffer(s, i, k, l);
      }
    }
  }

  /** The owner of a pipe whose entry is still ahead stays its owner. */
  lemma {:induction false} LaterOwnerKept(s: State, i: nat, a: Answer, j: nat)
    requires Mid(s, i) && i < j < |s.pfds| && Legal(s, i, a) && Entry(s, i, a).Alive?
    ensures Owner(Entry(s, i, a).state, s.pfds[j].fd) == Owner(s, s.pfds[j].fd)
  {
    EntryKeepsPipes(s, i, a);
    EntryKeeps(s, i, a);
    OneOwner(Entry(s, i, a).state, i + 1, s.pfds[j].fd);
    assert s.pfds[j].fd in s.open;
    SameOwner(s, Entry(s, i, a).state, a.descriptor, s.pfds[j].fd);
  }

  lemma {:induction false} ReadsOwnPipe(s: State, i: nat, a: Answer)
    requires i < |s.pfds| && CauseAt(s, i, a).None?
    ensures var events := EventsAt(s, i, a);
            forall j :: 0 <= j < |events| && events[j].PipeRead? ==> events[j].pipe == s.pfds[i].fd
  {
  }

  lemma {:induction false} SameAt(s: State, t: State, j: nat, b: Answer)
    requires t.pfds == s.pfds && j < |s.pfds| && t.listener == s.listener && s.pfds[j].fd != s.listener
    requires CauseAt(t, j, b) == CauseAt(s, j, b) && Owner(t, s.pfds[j].fd) == Owner(s, s.pfds[j].fd)
    requires s.pfds[j].fd in t.clients <==> s.pfds[j].fd in s.clients
    requires s.pfds[j].fd in s.clients ==> t.clients[s.pfds[j].fd] == s.clients[s.pfds[j].fd]
    requires Owner(s, s.pfds[j].fd).Some? ==>
        && t.clients[Owner(s, s.pfds[j].fd).value].id == s.clients[Owner(s, s.pfds[j].fd).value].id
        && BytesRead(t.log, s.pfds[j].fd) == BytesRead(s.log, s.pfds[j].fd)
    ensures CauseAt(s, j, b).None? ==> EventsAt(t, j, b) == EventsAt(s, j, b) && DropsAt(t, j, b) == DropsAt(s, j, b)
  {
  }

  lemma {:induction false} LaterBytesKept(s: State, i: nat, a: Answer, j: nat)
    requires Mid(s, i) && i < j < |s.pfds| && Legal(s, i, a) && Entry(s, i, a).Alive?
    ensures BytesRead(Entry(s, i, a).state.log, s.pfds[j].fd) == BytesRead(s.log, s.pfds[j].fd)
  {
    EntryExactly(s, i, a);
    ReadsOwnPipe(s, i, a);
    BytesReadBeside(s.log, EventsAt(s, i, a), s.pfds[j].fd);
  }

  /** Handling an entry leaves what a later one is to log and to drop. */
  lemma {:induction false} LaterEntryKept(s: State, i: nat, a: Answer, j: nat, b: Answer)
    requires Mid(s, i) && i < j < |s.pfds| && Legal(s, i, a) && Entry(s, i, a).Alive?
    ensures var t := Entry(s, i, a).state;
            && CauseAt(t, j, b) == CauseAt(s, j, b)
            && (CauseAt(s, j, b).None? ==>
                EventsAt(t, j, b) == EventsAt(s, j, b) && DropsAt(t, j, b) == DropsAt(s, j, b))
  {
    var t, fd := Entry(s, i, a).state, s.pfds[j].fd;
    LaterCauseKept(s, i, a, j, b);
    LaterOwnerKept(s, i, a, j);
    EntryKeepsPipes(s, i, a);
    LaterBytesKept(s, i, a, j);
    if fd in s.clients {
      LaterClientKept(s, i, a, j);
    }
    if Owner(s, fd).Some? {
      EntryKeepsIds(s, i, a, Owner(s, fd).value);
    }
    assert fd != s.listener by {
      PosOfEntry(s.pfds, j);
      PosOfEntry(s.pfds, 0);
    }
    SameAt(s, t, j, b);
  }

  lemma {:induction false} SameFrom(s: State, t: State, i: nat, answers: seq<Answer>)
    requires i <= |s.pfds| == |answers| && t.pfds == s.pfds
    requires forall j :: i <= j < |s.pfds| ==> CauseAt(t, j, answers[j]) == CauseAt(s, j, answers[j])
    requires forall j :: i <= j < |s.pfds| && CauseAt(s, j, answers[j]).None? ==>
               EventsAt(t, j, answers[j]) == EventsAt(s, j, answers[j])
               && DropsAt(t, j, answers[j]) == DropsAt(s, j, answers[j])
    ensures EventsFrom(t, i, answers) == EventsFrom(s, i, answers)
    ensures DropsFrom(t, i, answers) == DropsFrom(s, i, answers)
    decreases |s.pfds| - i
  {
    if i < |s.pfds| {
      SameFrom(s, t, i + 1, answers);
    }
  }

  lemma {:induction false} FromStep(s: State, i: nat, answers: seq<Answer>, log: seq<Event>, dropped: seq<int>)
    requires i < |s.pfds| == |answers| && CauseAt(s, i, answers[i]).None?
    ensures log + EventsAt(s, i, answers[i]) + EventsFrom(s, i + 1, answers) == log + EventsFrom(s, i, answers)
    ensures dropped + DropsAt(s, i, answers[i]) + DropsFrom(s, i + 1, answers) == dropped + DropsFrom(s, i, answers)
  {
    Associate(log, EventsAt(s, i, answers[i]), EventsFrom(s, i + 1, answers));
    Associate(dropped, DropsAt(s, i, answers[i]), DropsFrom(s, i + 1, answers));
  }

  lemma {:induction false} RestKept(s: State, i: nat, answers: seq<Answer>)
    requires i < |s.pfds| == |answers| && Mid(s, i) && Legal(s, i, answers[i]) && Entry(s, i, answers[i]).Alive?
    ensures var t := Entry(s, i, answers[i]).state;
            && EventsFrom(t, i + 1, answers) == EventsFrom(s, i + 1, answers)
            && DropsFrom(t, i + 1, answers) == DropsFrom(s, i + 1, answers)
  {
    var t := Entry(s, i, answers[i]).state;
    forall j | i + 1 <= j < |s.pfds|
      ensures CauseAt(t, j, answers[j]) == CauseAt(s, j, answers[j])
      ensures CauseAt(s, j, answers[j]).None? ==>
          EventsAt(t, j, answers[j]) == EventsAt(s, j, answers[j])
          && DropsAt(t, j, answers[j]) == DropsAt(s, j, answers[j])
    {
      LaterEntryKept(s, i, answers[i], j, answers[j]);
    }
    SameFrom(s, t, i + 1, answers);
  }

  lemma {:induction false} DispatchExactly(s: State, i: nat, answers: seq<Answer>)
    requires i <= |s.pfds| == |answers| && Mid(s, i) && LegalFrom(s, i, answers)
    ensures var o := Dispatch(s, i, answers);
            && o.state.log == s.log + EventsFrom(s, i, answers)
            && (o.Alive? ==> o.state.dropped == s.dropped + DropsFrom(s, i, answers))
    decreases |s.pfds| - i
  {
    if i < |s.pfds| {
      EntryDiesExactly(s, i, answers[i]);
      if Entry(s, i, answers[i]).Alive? {
        EntryKeeps(s, i, answers[i]);
        EntryExactly(s, i, answers[i]);
        DispatchExactly(Entry(s, i, answers[i]).state, i + 1, answers);
        RestKept(s, i, answers);
        FromStep(s, i, answers, s.log, s.dropped);
      }
    }
  }

  /** The descriptor accepted in a round, if any: entry 0 is the listener's. */
  function AcceptedIn(s: State, answers: seq<Answer>): set<int>
    requires s.pfds != [] && |answers| == |s.pfds|
  {
    if answers[0].readable then {answers[0].descriptor} else {}
  }

  /** A round logs exactly what its entries are to log, told from the state it starts with, and
      if it goes on, the clients left are those it had, less the dropped ones, and the
      accepted one. */
  lemma {:induction false} RoundExactly(s: State, answers: seq<Answer>)
    requires Inv(s) && |answers| == |s.pfds| && LegalRound(s, answers)
    ensures Round(s, answers).state.log == s.log + EventsFrom(s, 0, answers)
    ensures Round(s, answers).Alive? ==>
              Round(s, answers).state.clients.Keys
              == (s.clients.Keys - Gone(DropsFrom(s, 0, answers))) + AcceptedIn(s, answers)
  {
    var s0 := s.(pending := None);
    PendingTellsNothing(s, answers);
    DispatchExactly(s0, 0, answers);
    if AnyReady(answers) {
      if Round(s, answers).Alive? {
        DispatchKeeps(s0, 0, answers);
        var t := Dispatch(s0, 0, answers).state;
        RoundEnds(t, |s0.pfds|);
        DispatchKeepsKeys(s0, 0, answers);
        PendingIsAccepted(s0, answers);
        assert s0.dropped + DropsFrom(s, 0, answers) == DropsFrom(s, 0, answers);
      }
    } else {
      QuietDispatch(s0, 0, answers);
      assert !Ready(answers[0]);
      QuietDrops(s, 0, answers);
    }
  }

  lemma {:induction false} PendingIsAccepted(s: State, answers: seq<Answer>)
    requires Mid(s, 0) && s.pending.None? && |answers| == |s.pfds| && LegalFrom(s, 0, answers)
    requires Dispatch(s, 0, answers).Alive?
    ensures var t := Dispatch(s, 0, answers).state;
            (if t.pending.Some? then {t.pending.value.0} else {}) == AcceptedIn(s, answers)
  {
    var s1 := Entry(s, 0, answers[0]).state;
    assert Dispatch(s, 0, answers) == Dispatch(s1, 1, answers);
    DispatchKeepsPending(s1, 1, answers);
  }

  lemma {:induction false} PendingTellsNothing(s: State, answers: seq<Answer>)
    requires |answers| == |s.pfds|
    ensures EventsFrom(s.(pending := None), 0, answers) == EventsFrom(s, 0, answers)
    ensures DropsFrom(s.(pending := None), 0, answers) == DropsFrom(s, 0, answers)
  {
    var s0 := s.(pending := None);
    PendingHasNoOrphans(s);
    forall j | 0 <= j < |s.pfds|
      ensures CauseAt(s0, j, answers[j]) == CauseAt(s, j, answers[j])
      ensures CauseAt(s, j, answers[j]).None? ==>
          EventsAt(s0, j, answers[j]) == EventsAt(s, j, answers[j])
          && DropsAt(s0, j, answers[j]) == DropsAt(s, j, answers[j])
    {
      assert Owner(s0, s.pfds[j].fd) == Owner(s, s.pfds[j].fd);
    }
    SameFrom(s, s0, 0, answers);
  }

  lemma {:induction false} QuietDrops(s: State, i: nat, answers: seq<Answer>)
    requires i <= |s.pfds| == |answers| && !AnyReady(answers)
    ensures DropsFrom(s, i, answers) == [] && EventsFrom(s, i, answers) == []
    decreases |s.pfds| - i
  {
    if i < |s.pfds| {
      assert !Ready(answers[i]);
      QuietDrops(s, i + 1, answers);
    }
  }
  // And for runs.

  lemma {:induction false} RunLogGrows(s: State, rounds: seq<seq<Answer>>)
    requires Inv(s) && Fits(s, rounds) && LegalRun(s, rounds)
    ensures s.log <= Run(s, rounds).state.log
    decreases |rounds|
  {
    if rounds != [] {
      RoundExactly(s, rounds[0]);
      if Round(s, rounds[0]).Alive? {
        RoundKeeps(s, rounds[0]);
        RunLogGrows(Round(s, rounds[0]).state, rounds[1..]);
      }
    }
  }

  /** A run may be cut at any loop head. */
  lemma {:induction false} RunJoins(s: State, before: seq<seq<Answer>>, rest: seq<seq<Answer>>)
    requires Fits(s, before) && LegalRun(s, before) && Run(s, before).Alive?
    requires Fits(Run(s, before).state, rest) && LegalRun(Run(s, before).state, rest)
    ensures Fits(s, before + rest) && LegalRun(s, before + rest)
    ensures Run(s, before + rest) == Run(Run(s, before).state, rest)
    decreases |before|
  {
    if before == [] {
      assert before + rest == rest;
    } else {
      RunJoins(Round(s, before[0]).state, before[1..], rest);
      assert (before + rest)[0] == before[0] && (before + rest)[1..] == before[1..] + rest;
    }
  }

  /** The loop gets to entry `j`. */
  predicate Reached(s: State, j: nat, answers: seq<Answer>)
    requires j < |s.pfds| == |answers|
  {
    forall i :: 0 <= i <= j ==> CauseAt(s, i, answers[i]).None?
  }

  lemma {:induction false} HeadOfEvents(s: State, i: nat, answers: seq<Answer>)
    requires i < |s.pfds| == |answers| && CauseAt(s, i, answers[i]).None?
    ensures EventsFrom(s, i, answers) == EventsAt(s, i, answers[i]) + EventsFrom(s, i + 1, answers)
    ensures DropsFrom(s, i, answers) == DropsAt(s, i, answers[i]) + DropsFrom(s, i + 1, answers)
  {
  }

  lemma {:induction false} EventsAreIn(s: State, i: nat, j: nat, answers: seq<Answer>, e: Event)
    requires i <= j < |s.pfds| == |answers| && Reached(s, j, answers) && e in EventsAt(s, j, answers[j])
    ensures e in EventsFrom(s, i, answers)
    decreases j - i
  {
    HeadOfEvents(s, i, answers);
    if i < j {
      EventsAreIn(s, i + 1, j, answers, e);
    }
  }

  lemma {:induction false} FirstRoundIsLogged(s: State, rounds: seq<seq<Answer>>)
    requires Inv(s) && rounds != [] && Fits(s, rounds) && LegalRun(s, rounds)
    ensures Round(s, rounds[0]).state.log <= Run(s, rounds).state.log
  {
    if Round(s, rounds[0]).Alive? {
      RoundKeeps(s, rounds[0]);
      RunLogGrows(Round(s, rounds[0]).state, rounds[1..]);
    }
  }

  /** What an entry that is reached is to log stays in the log of every run. */
  lemma {:induction false} EventsAreLogged(s: State, rounds: seq<seq<Answer>>, j: nat, e: Event)
    requires Inv(s) && rounds != [] && Fits(s, rounds) && LegalRun(s, rounds) && j < |s.pfds|
    requires Reached(s, j, rounds[0]) && e in EventsAt(s, j, rounds[0][j])
    ensures e in Run(s, rounds).state.log
  {
    EventsAreIn(s, 0, j, rounds[0], e);
    RoundExactly(s, rounds[0]);
    FirstRoundIsLogged(s, rounds);
    var first, log := Round(s, rounds[0]).state.log, Run(s, rounds).state.log;
    assert e in first;
    var p: nat :| p < |first| && first[p] == e;
    assert log[p] == e;
  }

  /** A client whose CGI has ended is answered: with everything the run reads from its pipe
      when the CGI exited without failure, and with the error page when it failed. */
  lemma {:induction false} FinishedCgiIsAnswered(listener: int, before: seq<seq<Answer>>, rest: seq<seq<Answer>>,
      j: nat)
    requires Fits(Initial(listener), before) && LegalRun(Initial(listener), before)
    requires Run(Initial(listener), before).Alive?
    requires var s := Run(Initial(listener), before).state;
             && rest != [] && Fits(s, rest) && LegalRun(s, rest)
             && j < |s.pfds| && Reached(s, j, rest[0])
             && IsPipeRead(s, j, rest[0][j]) && EndsCgi(rest[0][j].received)
    ensures var s, a := Run(Initial(listener), before).state, rest[0][j];
            var pipe := s.pfds[j].fd;
            var id := s.clients[Owner(s, pipe).value].id;
            var log := Run(s, rest).state.log;
            if a.exitFailure then Responded(id, a.response) in log else CgiSent(id, pipe, BytesRead(log, pipe)) in log
  {
    InitialIsInv(listener);
    RunKeeps(Initial(listener), before);
    var s, a := Run(Initial(listener), before).state, rest[0][j];
    var pipe := s.pfds[j].fd;
    var events := EventsAt(s, j, a);
    assert events[1] in events;
    EventsAreLogged(s, rest, j, events[1]);
    if !a.exitFailure {
      RunJoins(Initial(listener), before, rest);
      var log := Run(s, rest).state.log;
      var p: nat :| p < |log| && log[p] == events[1];
      CgiIsolation(listener, before + rest, p);
    }
  }

  /** A client that is served is answered with the response built for it, or its CGI is
      started; nothing else keeps it in the map. */
  lemma {:induction false} ServedClientIsAnswered(s: State, rounds: seq<seq<Answer>>, j: nat)
    requires Inv(s) && rounds != [] && Fits(s, rounds) && LegalRun(s, rounds) && j < |s.pfds|
    requires Reached(s, j, rounds[0]) && IsServed(s, j, rounds[0][j])
    ensures var c, a := s.clients[s.pfds[j].fd], rounds[0][j];
            var log := Run(s, rounds).state.log;
            && (NeedsParsing(c) ==> a.parse.ParsedTo?)
            && (!BecomesCgi(c, a) && StatusServed(c, a) != NO_CONTENT ==> Responded(c.id, a.response) in log)
            && (BecomesCgi(c, a) && c.cgi.None? ==> Event.Spawned(c.id, a.descriptor) in log)
            && (Round(s, rounds[0]).Alive? && !BecomesCgi(c, a) ==>
                s.pfds[j].fd !in Round(s, rounds[0]).state.clients)
  {
    var fd := s.pfds[j].fd;
    var c, a := s.clients[fd], rounds[0][j];
    var events := EventsAt(s, j, a);
    assert events == ServiceEvents(c, a);
    if events != [] {
      assert events[0] in events;
      EventsAreLogged(s, rounds, j, events[0]);
    }
    if Round(s, rounds[0]).Alive? && !BecomesCgi(c, a) {
      RoundExactly(s, rounds[0]);
      assert fd in DropsAt(s, j, a);
      DropsAreIn(s, 0, j, rounds[0], fd);
      AcceptedIsNew(s, rounds[0], fd);
    }
  }

  lemma {:induction false} AcceptedIsNew(s: State, answers: seq<Answer>, fd: int)
    requires Inv(s) && |answers| == |s.pfds| && LegalRound(s, answers) && fd in s.clients
    ensures fd !in AcceptedIn(s, answers)
  {
    ClientEntries(s, fd);
    assert s.pfds[Pos(s.pfds, fd)].fd in s.open;
    assert Legal(s.(pending := None), 0, answers[0]);
  }

  lemma {:induction false} DropsAreIn(s: State, i: nat, j: nat, answers: seq<Answer>, d: int)
    requires i <= j < |s.pfds| == |answers| && Reached(s, j, answers) && d in DropsAt(s, j, answers[j])
    ensures d in DropsFrom(s, i, answers)
    decreases j - i
  {
    HeadOfEvents(s, i, answers);
    if i < j {
      DropsAreIn(s, i + 1, j, answers, d);
    }
  }
}
