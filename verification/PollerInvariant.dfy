/** The invariant of the poll loop: what every handled entry and every round keeps. */
module PollerInvariant {
  import opened CppStrings
  import opened PollerState

  // Reading the log.

  predicate IsAnswer(e: Event) { e.Responded? || e.CgiSent? }

  ghost predicate SpawnedFor(log: seq<Event>, id: nat, pipe: int) {
    exists j :: 0 <= j < |log| && log[j] == Event.Spawned(id, pipe)
  }

  ghost predicate SpawnedPipe(log: seq<Event>, pipe: int) {
    exists j :: 0 <= j < |log| && log[j].Spawned? && log[j].pipe == pipe
  }

  ghost predicate Unanswered(log: seq<Event>, id: nat) {
    forall j :: 0 <= j < |log| && IsAnswer(log[j]) ==> log[j].id != id
  }

  ghost predicate Unspawned(log: seq<Event>, id: nat) {
    forall j :: 0 <= j < |log| && log[j].Spawned? ==> log[j].id != id
  }

  /** The bytes read from a pipe, in order. */
  function BytesRead(log: seq<Event>, pipe: int): string {
    if log == [] then ""
    else
      var e := log[|log| - 1];
      BytesRead(log[..|log| - 1], pipe) + (if e.PipeRead? && e.pipe == pipe then e.bytes else "")
  }

  predicate IsRead(e: Event) { e.PipeRead? || e.PipeFailed? }

  /** A read that ends what a CGI says: a short one or a failed one. */
  predicate IsEnd(e: Event, pipe: int) {
    || (e.PipeRead? && e.pipe == pipe && |e.bytes| < RECV_SIZE)
    || (e.PipeFailed? && e.pipe == pipe)
  }

  ghost predicate Unended(log: seq<Event>, pipe: int) {
    forall j :: 0 <= j < |log| ==> !IsEnd(log[j], pipe)
  }

  /** The last event is the first one that ends what comes out of the pipe. */
  ghost predicate JustEnded(log: seq<Event>, pipe: int) {
    log != [] && IsEnd(log[|log| - 1], pipe) && Unended(log[..|log| - 1], pipe)
  }

  /** What a CGI client is sent is what was read from the pipe that was opened for it, up to
      the read that ended it. */
  ghost predicate Delivered(before: seq<Event>, id: nat, pipe: int, bytes: string) {
    SpawnedFor(before, id, pipe) && bytes == BytesRead(before, pipe) && JustEnded(before, pipe)
  }

  ghost predicate IdsBelow(log: seq<Event>, nextId: nat) {
    forall j :: 0 <= j < |log| && (IsAnswer(log[j]) || log[j].Spawned?) ==> log[j].id < nextId
  }

  ghost predicate AnsweredOnce(log: seq<Event>) {
    forall i, j :: 0 <= i < j < |log| && IsAnswer(log[i]) && IsAnswer(log[j]) ==> log[i].id != log[j].id
  }

  ghost predicate SpawnedOnce(log: seq<Event>) {
    forall i, j :: 0 <= i < j < |log| && log[i].Spawned? && log[j].Spawned?
        ==> log[i].id != log[j].id && log[i].pipe != log[j].pipe
  }

  ghost predicate ReadsSpawned(log: seq<Event>) {
    forall j :: 0 <= j < |log| && IsRead(log[j]) ==> SpawnedPipe(log, log[j].pipe)
  }

  ghost predicate AllDelivered(log: seq<Event>) {
    forall j :: 0 <= j < |log| && log[j].CgiSent? ==> Delivered(log[..j], log[j].id, log[j].pipe, log[j].bytes)
  }

  ghost predicate NoReadAfterAnswer(log: seq<Event>) {
    forall i, j :: 0 <= i < j < |log| && log[i].CgiSent? && IsRead(log[j]) ==> log[i].pipe != log[j].pipe
  }

  /** At most one answer and one CGI for each connection, no pipe used twice, and every CGI
      answer made of its own pipe's bytes, none of which is read after the answer. */
  ghost predicate LogOk(log: seq<Event>, nextId: nat) {
    && IdsBelow(log, nextId) && AnsweredOnce(log) && SpawnedOnce(log)
    && ReadsSpawned(log) && AllDelivered(log) && NoReadAfterAnswer(log)
  }

  lemma BytesReadAppend(log: seq<Event>, e: Event, pipe: int)
    ensures BytesRead(log + [e], pipe) == BytesRead(log, pipe) + (if e.PipeRead? && e.pipe == pipe then e.bytes else "")
  {
    assert (log + [e])[..|log|] == log;
  }

  lemma SpawnedAppend(log: seq<Event>, e: Event)
    ensures forall id, pipe ::
        SpawnedFor(log + [e], id, pipe) <==> SpawnedFor(log, id, pipe) || e == Event.Spawned(id, pipe)
    ensures forall pipe :: SpawnedPipe(log + [e], pipe) <==> SpawnedPipe(log, pipe) || (e.Spawned? && e.pipe == pipe)
  {
    var more := log + [e];
    assert more[|log|] == e;
    forall id, pipe
      ensures SpawnedFor(more, id, pipe) <==> SpawnedFor(log, id, pipe) || e == Event.Spawned(id, pipe)
    {
      if j :| 0 <= j < |log| && log[j] == Event.Spawned(id, pipe) {
        assert more[j] == log[j];
      }
    }
    forall pipe
      ensures SpawnedPipe(more, pipe) <==> SpawnedPipe(log, pipe) || (e.Spawned? && e.pipe == pipe)
    {
      if j :| 0 <= j < |log| && log[j].Spawned? && log[j].pipe == pipe {
        assert more[j] == log[j];
      }
    }
  }

  ghost predicate MayBeRead(log: seq<Event>, pipe: int) {
    SpawnedPipe(log, pipe) && forall j :: 0 <= j < |log| && log[j].CgiSent? ==> log[j].pipe != pipe
  }

  /** What the next event must satisfy. */
  ghost predicate MayHappen(log: seq<Event>, nextId: nat, e: Event) {
    match e
    case Accepted(_, _) => true
    case Spawned(id, pipe) => id < nextId && Unspawned(log, id) && !SpawnedPipe(log, pipe)
    case PipeRead(pipe, _) => MayBeRead(log, pipe)
    case PipeFailed(pipe) => MayBeRead(log, pipe)
    case Responded(id, _) => id < nextId && Unanswered(log, id)
    case CgiSent(id, pipe, bytes) => id < nextId && Unanswered(log, id) && Delivered(log, id, pipe, bytes)
  }

  lemma OncesGrow(log: seq<Event>, nextId: nat, e: Event)
    requires IdsBelow(log, nextId) && AnsweredOnce(log) && NoReadAfterAnswer(log) && MayHappen(log, nextId, e)
    ensures IdsBelow(log + [e], nextId) && AnsweredOnce(log + [e]) && NoReadAfterAnswer(log + [e])
  {
  }

  lemma SpawnedOnceGrows(log: seq<Event>, nextId: nat, e: Event)
    requires SpawnedOnce(log) && MayHappen(log, nextId, e)
    ensures SpawnedOnce(log + [e])
  {
    if e.Spawned? {
      assert forall i :: 0 <= i < |log| && log[i].Spawned? ==> SpawnedPipe(log, log[i].pipe);
    }
  }

  lemma ReadsSpawnedGrows(log: seq<Event>, nextId: nat, e: Event)
    requires ReadsSpawned(log) && MayHappen(log, nextId, e)
    ensures ReadsSpawned(log + [e])
  {
    SpawnedAppend(log, e);
  }

  lemma DeliveredGrows(log: seq<Event>, nextId: nat, e: Event)
    requires AllDelivered(log) && MayHappen(log, nextId, e)
    ensures AllDelivered(log + [e])
  {
    var more := log + [e];
    forall j | 0 <= j < |more| && more[j].CgiSent?
      ensures Delivered(more[..j], more[j].id, more[j].pipe, more[j].bytes)
    {
      if j < |log| {
        assert more[..j] == log[..j];
      } else {
        assert more[..j] == log;
      }
    }
  }

  lemma LogGrows(log: seq<Event>, nextId: nat, e: Event)
    requires LogOk(log, nextId) && MayHappen(log, nextId, e)
    ensures LogOk(log + [e], nextId)
  {
    OncesGrow(log, nextId, e);
    SpawnedOnceGrows(log, nextId, e);
    ReadsSpawnedGrows(log, nextId, e);
    DeliveredGrows(log, nextId, e);
  }

  // The vector.

  predicate Distinct(pfds: seq<PollFd>) {
    forall a, b :: 0 <= a < b < |pfds| ==> pfds[a].fd != pfds[b].fd
  }

  lemma PosOfEntry(pfds: seq<PollFd>, a: nat)
    requires Distinct(pfds) && a < |pfds|
    ensures Pos(pfds, pfds[a].fd) == a
  {
    PosFinds(pfds, pfds[a].fd);
  }

  lemma PosFinds(pfds: seq<PollFd>, fd: int)
    ensures Pos(pfds, fd) == NPOS <==> forall a :: 0 <= a < |pfds| ==> pfds[a].fd != fd
  {
    if pfds != [] {
      PosFinds(pfds[1..], fd);
      assert forall a :: 0 < a < |pfds| ==> pfds[a] == pfds[1..][a - 1];
    }
  }

  /** Entry 0 is the listener, descriptors are distinct, and every other entry belongs to a
      client or is a pipe. */
  ghost predicate Table(s: State) {
    && s.pfds != [] && s.pfds[0] == PollFd(s.listener, false)
    && Distinct(s.pfds)
    && forall a :: 0 < a < |s.pfds|
        ==> if s.pfds[a].wantsWrite then s.pfds[a].fd in s.clients else SpawnedPipe(s.log, s.pfds[a].fd)
  }

  /** Descriptors in use are open, and pipes are nobody else's descriptors. */
  ghost predicate Descriptors(s: State) {
    && (forall a :: 0 <= a < |s.pfds| ==> s.pfds[a].fd in s.open)
    && (forall pipe :: SpawnedPipe(s.log, pipe) ==>
          pipe in s.open && pipe !in s.clients && pipe != s.listener && (s.pending.Some? ==> pipe != s.pending.value.0))
    && (s.pending.Some? ==>
        s.pending.value.0 in s.open && Pos(s.pfds, s.pending.value.0) == NPOS && s.pending.value.0 !in s.clients)
  }

  /** The connection accepted in this round, once entry 0 has been handled. */
  ghost predicate PendingOk(s: State, i: nat) {
    s.pending.Some? ==>
      var c := s.pending.value.1;
      && i > 0 && c.id < s.nextId && c == NewConn(c.id)
      && Unanswered(s.log, c.id) && Unspawned(s.log, c.id)
      && forall k :: k in s.clients ==> s.clients[k].id != c.id
  }

  /** Only entries that have been handled are dropped, and never the listener. */
  ghost predicate DroppedOk(s: State, i: nat) {
    forall d :: d in s.dropped ==> 0 < Pos(s.pfds, d) < i
  }

  ghost predicate DistinctIds(s: State) {
    forall k, l :: k in s.clients && l in s.clients && k != l ==> s.clients[k].id != s.clients[l].id
  }

  /** A client that owns a CGI, while the entries before `i` have been handled. */
  ghost predicate CgiOk(s: State, i: nat, k: int, c: Conn, g: Cgi) {
    && c.isCgi
    && SpawnedFor(s.log, c.id, g.readFd)
    && g.response == BytesRead(s.log, g.readFd)
    && (c.cgiAdded ==> Pos(s.pfds, k) < Pos(s.pfds, g.readFd))
    && (!c.cgiAdded ==> Pos(s.pfds, g.readFd) == NPOS && Pos(s.pfds, k) < i && !g.done && k !in s.dropped)
    && (!g.done ==> Unended(s.log, g.readFd) && Unanswered(s.log, c.id) && g.readFd !in s.dropped)
    && (g.done ==> Pos(s.pfds, g.readFd) < i && k in s.dropped && g.readFd in s.dropped)
  }

  ghost predicate ClientOk(s: State, i: nat, k: int)
    requires k in s.clients
  {
    var c := s.clients[k];
    && c.id < s.nextId
    && Pos(s.pfds, k) > 0 && s.pfds[Pos(s.pfds, k)].wantsWrite
    && (c.cgi.Some? ==> CgiOk(s, i, k, c, c.cgi.value))
    && (c.cgi.None? ==>
        !c.cgiAdded && Unspawned(s.log, c.id) && (Unanswered(s.log, c.id) || (k in s.dropped && Pos(s.pfds, k) < i)))
  }

  ghost predicate ClientsOk(s: State, i: nat) {
    forall k :: k in s.clients ==> ClientOk(s, i, k)
  }

  /** The invariant while the entries before `i` have been handled. */
  ghost predicate Mid(s: State, i: nat) {
    && Table(s) && Descriptors(s) && PendingOk(s, i) && DroppedOk(s, i) && DistinctIds(s)
    && ClientsOk(s, i) && LogOk(s.log, s.nextId)
  }

  /** The invariant at the loop head. */
  ghost predicate Inv(s: State) {
    s.dropped == [] && Mid(s.(pending := None), 0)
  }

  /** What is assumed of the kernel while entry `i` is handled: only client sockets hang up
      (the server itself keeps the write end of every CGI pipe open), writability is reported
      only where it was asked for, and accept and pipe return a descriptor that is not open. */
  predicate Legal(s: State, i: nat, a: Answer)
    requires i < |s.pfds|
  {
    && (a.hangup ==> s.pfds[i].wantsWrite)
    && (a.writable ==> s.pfds[i].wantsWrite)
    && a.descriptor !in s.open
  }

  // One entry.

  /** An event about a connection or about its pipe. */
  ghost predicate About(e: Event, id: nat, pipe: Option<int>) {
    match e
    case Accepted(_, _) => false
    case Spawned(id', _) => id' == id
    case PipeRead(pipe', _) => Some(pipe') == pipe
    case PipeFailed(pipe') => Some(pipe') == pipe
    case Responded(id', _) => id' == id
    case CgiSent(id', _, _) => id' == id
  }

  function PipeOf(c: Conn): Option<int> {
    if c.cgi.Some? then Some(c.cgi.value.readFd) else None
  }

  /** The log without change, or with one event that is not about a connection. */
  ghost predicate LogBeside(log: seq<Event>, log': seq<Event>, e: Event, c: Conn) {
    log' == log || (log' == log + [e] && !About(e, c.id, PipeOf(c)))
  }

  lemma CgiKept(s: State, s': State, i: nat, k: int, e: Event, c: Conn)
    requires s'.pfds == s.pfds && c.cgi.Some? && CgiOk(s, i, k, c, c.cgi.value)
    requires forall d :: d in s.dropped ==> d in s'.dropped
    requires LogBeside(s.log, s'.log, e, c)
    requires k in s'.dropped ==> k in s.dropped || c.cgiAdded
    requires c.cgi.value.readFd in s'.dropped ==> c.cgi.value.readFd in s.dropped
    ensures CgiOk(s', i, k, c, c.cgi.value) && CgiOk(s', i + 1, k, c, c.cgi.value)
  {
    if s'.log != s.log {
      SpawnedAppend(s.log, e);
      BytesReadAppend(s.log, e, c.cgi.value.readFd);
      assert BytesRead(s'.log, c.cgi.value.readFd) == BytesRead(s.log, c.cgi.value.readFd);
    }
  }

  /** A client that is not touched stays as it was, when the log grows by an event that is
      not about it and the drop stack by an entry that is not its own. */
  lemma ClientKept(s: State, s': State, i: nat, k: int, e: Event)
    requires k in s.clients && k in s'.clients && s'.clients[k] == s.clients[k] && s'.pfds == s.pfds
    requires s'.nextId >= s.nextId
    requires forall d :: d in s.dropped ==> d in s'.dropped
    requires LogBeside(s.log, s'.log, e, s.clients[k])
    requires k in s'.dropped ==> k in s.dropped || s.clients[k].cgi.None? || s.clients[k].cgiAdded
    requires s.clients[k].cgi.Some? ==>
        s.clients[k].cgi.value.readFd in s'.dropped ==> s.clients[k].cgi.value.readFd in s.dropped
    requires ClientOk(s, i, k)
    ensures ClientOk(s', i, k) && ClientOk(s', i + 1, k)
  {
    var c := s.clients[k];
    if c.cgi.Some? {
      CgiKept(s, s', i, k, e, c);
    }
  }

  lemma NothingKeeps(s: State, i: nat)
    requires Mid(s, i)
    ensures Mid(s, i + 1)
  {
    forall k | k in s.clients
      ensures ClientOk(s, i + 1, k)
    {
      ClientKept(s, s, i, k, Accepted(0, 0));
    }
  }

  /** The entry of a client that owns a CGI not yet in the vector has been handled before. */
  lemma OwnEntryIsEarlier(s: State, i: nat, k: int)
    requires Table(s) && i < |s.pfds| && k in s.clients && ClientOk(s, i, k)
    requires s.pfds[i].fd == k
    ensures s.clients[k].cgi.None? || s.clients[k].cgiAdded
    ensures s.clients[k].cgi.Some? ==> !s.clients[k].cgi.value.done
    ensures Unanswered(s.log, s.clients[k].id)
  {
    PosOfEntry(s.pfds, i);
  }

  /** Pipes are no client descriptors. */
  lemma PipesAreNoClients(s: State, i: nat)
    requires Descriptors(s) && ClientsOk(s, i)
    ensures forall k :: k in s.clients && s.clients[k].cgi.Some? ==> s.clients[k].cgi.value.readFd !in s.clients
  {
    forall k | k in s.clients && s.clients[k].cgi.Some?
      ensures s.clients[k].cgi.value.readFd !in s.clients
    {
      assert ClientOk(s, i, k);
      SpawnedIsPipe(s.log, s.clients[k].id, s.clients[k].cgi.value.readFd);
    }
  }

  lemma HangupKeeps(s: State, i: nat)
    requires Mid(s, i) && i < |s.pfds| && s.pfds[i].wantsWrite
    ensures Mid(Dropping(s, s.pfds[i].fd), i + 1)
  {
    PosOfEntry(s.pfds, i);
    PosOfEntry(s.pfds, 0);
    HangupClients(s, i);
  }

  lemma HangupClients(s: State, i: nat)
    requires Mid(s, i) && i < |s.pfds| && s.pfds[i].wantsWrite
    ensures ClientsOk(Dropping(s, s.pfds[i].fd), i + 1)
  {
    var fd := s.pfds[i].fd;
    var s' := Dropping(s, fd);
    PipesAreNoClients(s, i);
    assert fd in s.clients;
    forall k | k in s'.clients
      ensures ClientOk(s', i + 1, k)
    {
      if k == fd {
        OwnEntryIsEarlier(s, i, k);
      }
      ClientKept(s, s', i, k, Accepted(0, 0));
    }
  }

  lemma AcceptKeeps(s: State, i: nat, fd: int)
    requires Mid(s, i) && i < |s.pfds| && s.pfds[i].fd == s.listener && fd !in s.open
    ensures Mid(Accepting(s, fd), i + 1)
    ensures s.pending.None?
  {
    var s' := Accepting(s, fd);
    var e := Accepted(s.nextId, fd);
    PosOfEntry(s.pfds, i);
    PosOfEntry(s.pfds, 0);
    assert i == 0;
    LogGrows(s.log, s.nextId, e);
    SpawnedAppend(s.log, e);
    PosFinds(s.pfds, fd);
    ClientsAreOpen(s, i);
    forall k | k in s'.clients
      ensures ClientOk(s', i + 1, k)
    {
      ClientKept(s, s', i, k, e);
    }
  }

  lemma ClientsAreOpen(s: State, i: nat)
    requires Descriptors(s) && ClientsOk(s, i)
    ensures forall k :: k in s.clients ==> k in s.open
  {
    forall k | k in s.clients
      ensures k in s.open
    {
      assert ClientOk(s, i, k);
      assert s.pfds[Pos(s.pfds, k)].fd in s.open;
    }
  }

  /** Replacing one connection by one with the same id keeps what is not said of single
      clients. */
  lemma ReplacingKeeps(s: State, i: nat, k: int, c: Conn)
    requires Mid(s, i) && k in s.clients && c.id == s.clients[k].id
    ensures var s' := s.(clients := s.clients[k := c]);
            && Table(s') && Descriptors(s') && PendingOk(s', i) && PendingOk(s', i + 1)
            && DroppedOk(s', i) && DistinctIds(s')
  {
    var s' := s.(clients := s.clients[k := c]);
    assert s'.clients.Keys == s.clients.Keys;
    assert forall l :: l in s'.clients ==> s'.clients[l].id == s.clients[l].id;
  }

  /** A connection whose request changed but whose CGI did not. */
  ghost predicate SameCgi(c: Conn, c': Conn) {
    c'.id == c.id && c'.cgi == c.cgi && c'.cgiAdded == c.cgiAdded && (c.isCgi ==> c'.isCgi)
  }

  lemma ClientChanged(s: State, s': State, i: nat, k: int)
    requires k in s.clients && k in s'.clients && SameCgi(s.clients[k], s'.clients[k])
    requires s'.pfds == s.pfds && s'.nextId >= s.nextId && s'.log == s.log
    requires forall d :: d in s.dropped ==> d in s'.dropped
    requires k in s'.dropped ==> k in s.dropped || s.clients[k].cgi.None? || s.clients[k].cgiAdded
    requires s.clients[k].cgi.Some? ==>
        s.clients[k].cgi.value.readFd in s'.dropped ==> s.clients[k].cgi.value.readFd in s.dropped
    requires ClientOk(s, i, k)
    ensures ClientOk(s', i, k) && ClientOk(s', i + 1, k)
  {
    var c := s.clients[k];
    if c.cgi.Some? {
      CgiKept(s, s', i, k, Accepted(0, 0), c);
    }
  }

  /** Replacing the connection of entry `i` by one with the same CGI, dropping it or not. */
  ghost predicate Replaced(s: State, s': State, i: nat, c': Conn)
    requires i < |s.pfds| && s.pfds[i].fd in s.clients
  {
    var fd := s.pfds[i].fd;
    var r := s.(clients := s.clients[fd := c']);
    SameCgi(s.clients[fd], c') && (s' == r || s' == Dropping(r, fd))
  }

  lemma ReplacedClients(s: State, s': State, i: nat, c': Conn)
    requires Mid(s, i) && i < |s.pfds| && s.pfds[i].fd in s.clients && Replaced(s, s', i, c')
    ensures ClientsOk(s', i + 1)
  {
    var fd := s.pfds[i].fd;
    OwnEntryIsEarlier(s, i, fd);
    PipesAreNoClients(s, i);
    forall k | k in s'.clients
      ensures ClientOk(s', i + 1, k)
    {
      if k == fd {
        ClientChanged(s, s', i, k);
      } else {
        ClientKept(s, s', i, k, Accepted(0, 0));
      }
    }
  }

  lemma ReplacedEntryKeeps(s: State, s': State, i: nat, c': Conn)
    requires Mid(s, i) && i < |s.pfds| && s.pfds[i].fd in s.clients && Replaced(s, s', i, c')
    ensures Mid(s', i + 1)
  {
    var fd := s.pfds[i].fd;
    ReplacedClients(s, s', i, c');
    PosOfEntry(s.pfds, i);
    ReplacingKeeps(s, i, fd, c');
    ClientEntry(s, i, fd);
  }

  lemma ReceivingKeeps(s: State, i: nat, r: Received)
    requires Mid(s, i) && i < |s.pfds| && s.pfds[i].fd in s.clients
    ensures Mid(Receiving(s, s.pfds[i].fd, r), i + 1)
  {
    var fd := s.pfds[i].fd;
    ReplacedEntryKeeps(s, Receiving(s, fd, r), i, Receiving(s, fd, r).clients[fd]);
  }

  // Serving a writable client.

  lemma RespondingKeeps(s: State, i: nat, bytes: string)
    requires Mid(s, i) && i < |s.pfds| && s.pfds[i].fd in s.clients && s.clients[s.pfds[i].fd].cgi.None?
    ensures var fd := s.pfds[i].fd;
            Mid(Dropping(Logging(s, Responded(s.clients[fd].id, bytes)), fd), i + 1)
  {
    var fd := s.pfds[i].fd;
    var e := Responded(s.clients[fd].id, bytes);
    ClientEntry(s, i, fd);
    OwnEntryIsEarlier(s, i, fd);
    PosOfEntry(s.pfds, i);
    GlobalsLog(s, i + 1, e);
    GlobalsDropped(Logging(s, e), i + 1, fd);
    RespondedClients(s, i, bytes);
  }

  lemma RespondedClients(s: State, i: nat, bytes: string)
    requires Mid(s, i) && i < |s.pfds| && s.pfds[i].fd in s.clients && s.clients[s.pfds[i].fd].cgi.None?
    ensures var fd := s.pfds[i].fd;
            ClientsOk(Dropping(Logging(s, Responded(s.clients[fd].id, bytes)), fd), i + 1)
  {
    var fd := s.pfds[i].fd;
    var e := Responded(s.clients[fd].id, bytes);
    var s' := Dropping(Logging(s, e), fd);
    SpawnedAppend(s.log, e);
    PipesAreNoClients(s, i);
    forall k | k in s'.clients
      ensures ClientOk(s', i + 1, k)
    {
      assert ClientOk(s, i, k);
      if k != fd {
        ClientKept(s, s', i, k, e);
      } else {
        PosOfEntry(s.pfds, i);
      }
    }
  }

  /** Client `fd` with a CGI whose pipe is `pipe`, freshly started. */
  function Spawning(s: State, fd: int, pipe: int): State
    requires fd in s.clients
  {
    var c := s.clients[fd];
    Logging(s.(clients := s.clients[fd := c.(cgi := Some(Cgi(pipe, "", false)))], open := s.open + {pipe}),
        Event.Spawned(c.id, pipe))
  }

  lemma SpawningKeepsTables(s: State, i: nat, fd: int, pipe: int)
    requires Mid(s, i) && fd in s.clients && pipe !in s.open && Unspawned(s.log, s.clients[fd].id)
        && s.clients[fd].id < s.nextId
    ensures var s' := Spawning(s, fd, pipe);
            Table(s') && Descriptors(s') && PendingOk(s', i + 1) && DroppedOk(s', i + 1) && DistinctIds(s')
                && LogOk(s'.log, s'.nextId)
  {
    var c := s.clients[fd];
    var e := Event.Spawned(c.id, pipe);
    ReplacingKeeps(s, i, fd, c.(cgi := Some(Cgi(pipe, "", false))));
    PipeIsNew(s, i, pipe);
    LogGrows(s.log, s.nextId, e);
    SpawnedAppend(s.log, e);
  }

  lemma SpawningKeeps(s: State, i: nat, pipe: int)
    requires Mid(s, i) && i < |s.pfds| && s.pfds[i].fd in s.clients
    requires s.clients[s.pfds[i].fd].cgi.None? && s.clients[s.pfds[i].fd].isCgi && pipe !in s.open
    ensures Mid(Spawning(s, s.pfds[i].fd, pipe), i + 1)
  {
    var fd := s.pfds[i].fd;
    var c := s.clients[fd];
    var e := Event.Spawned(c.id, pipe);
    var s' := Spawning(s, fd, pipe);
    assert ClientOk(s, i, fd);
    SpawningKeepsTables(s, i, fd, pipe);
    forall k | k in s'.clients
      ensures ClientOk(s', i + 1, k)
    {
      if k != fd {
        ClientKept(s, s', i, k, e);
      } else {
        NewCgiOk(s, i, fd, pipe);
      }
    }
  }

  lemma NewCgiOk(s: State, i: nat, fd: int, pipe: int)
    requires Mid(s, i) && i < |s.pfds| && s.pfds[i].fd == fd && fd in s.clients
    requires s.clients[fd].cgi.None? && s.clients[fd].isCgi && pipe !in s.open
    ensures ClientOk(Spawning(s, fd, pipe), i + 1, fd)
  {
    assert ClientOk(s, i, fd);
    OwnEntryIsEarlier(s, i, fd);
    PosOfEntry(s.pfds, i);
    PipeIsNew(s, i, pipe);
    SpawnedAppend(s.log, Event.Spawned(s.clients[fd].id, pipe));
    BytesReadAppend(s.log, Event.Spawned(s.clients[fd].id, pipe), pipe);
  }

  /** A descriptor that is not open is in nobody's use and has no history as a pipe. */
  lemma PipeIsNew(s: State, i: nat, pipe: int)
    requires Mid(s, i) && pipe !in s.open
    ensures !SpawnedPipe(s.log, pipe) && pipe !in s.clients && Pos(s.pfds, pipe) == NPOS && pipe != s.listener
    ensures s.pending.Some? ==> pipe != s.pending.value.0
    ensures BytesRead(s.log, pipe) == "" && Unended(s.log, pipe)
  {
    PosFinds(s.pfds, pipe);
    ClientsAreOpen(s, i);
    assert s.pfds[0].fd in s.open;
    NeverRead(s.log, pipe);
  }

  lemma {:induction false} NeverRead(log: seq<Event>, pipe: int)
    requires forall j :: 0 <= j < |log| && log[j].PipeRead? ==> log[j].pipe != pipe
    ensures BytesRead(log, pipe) == ""
  {
    if log != [] {
      NeverRead(log[..|log| - 1], pipe);
    }
  }

  /** A connection that owns a CGI is flagged so. */
  lemma CgiIsFlagged(s: State, i: nat, k: int)
    requires Mid(s, i) && k in s.clients && s.clients[k].cgi.Some?
    ensures s.clients[k].isCgi
  {
    assert ClientOk(s, i, k);
  }

  lemma ServingKeeps(s: State, i: nat, a: Answer)
    requires Mid(s, i) && i < |s.pfds| && s.pfds[i].fd in s.clients && a.descriptor !in s.open
    ensures Mid(Serving(s, s.pfds[i].fd, a), i + 1)
  {
    var fd := s.pfds[i].fd;
    var c := Processed(s.clients[fd], a);
    var s' := s.(clients := s.clients[fd := c]);
    assert SameCgi(s.clients[fd], c);
    if c.isCgi {
      if c.cgi.Some? {
        ReplacedEntryKeeps(s, s', i, c);
      } else {
        ServingStartsCgi(s, i, a);
      }
    } else {
      ServingAnswers(s, i, a);
    }
  }

  lemma ServingIsSpawning(s: State, fd: int, a: Answer)
    requires fd in s.clients
    requires var c := Processed(s.clients[fd], a); c.isCgi && c.cgi.None?
    ensures Serving(s, fd, a) == Spawning(s.(clients := s.clients[fd := Processed(s.clients[fd], a)]), fd, a.descriptor)
  {
    var c := Processed(s.clients[fd], a);
    var c' := c.(cgi := Some(Cgi(a.descriptor, "", false)));
    assert s.clients[fd := c][fd := c'] == s.clients[fd := c'];
  }

  lemma ServingStartsCgi(s: State, i: nat, a: Answer)
    requires Mid(s, i) && i < |s.pfds| && s.pfds[i].fd in s.clients && a.descriptor !in s.open
    requires var c := Processed(s.clients[s.pfds[i].fd], a); c.isCgi && c.cgi.None?
    ensures Mid(Serving(s, s.pfds[i].fd, a), i + 1)
  {
    var fd := s.pfds[i].fd;
    var c := Processed(s.clients[fd], a);
    var s' := s.(clients := s.clients[fd := c]);
    ProcessedKeeps(s, i, c);
    SpawningKeeps(s', i, a.descriptor);
    ServingIsSpawning(s, fd, a);
  }

  lemma ServingAnswers(s: State, i: nat, a: Answer)
    requires Mid(s, i) && i < |s.pfds| && s.pfds[i].fd in s.clients
    requires !Processed(s.clients[s.pfds[i].fd], a).isCgi
    ensures Mid(Serving(s, s.pfds[i].fd, a), i + 1)
  {
    var fd := s.pfds[i].fd;
    var c := Processed(s.clients[fd], a);
    var s' := s.(clients := s.clients[fd := c]);
    if c.status == NO_CONTENT {
      ReplacedEntryKeeps(s, Dropping(s', fd), i, c);
    } else {
      ProcessedKeeps(s, i, c);
      if c.cgi.Some? {
        CgiIsFlagged(s', i, fd);
      }
      RespondingKeeps(s', i, a.response);
    }
  }

  /** Processing a request before anything is done about it. */
  lemma ProcessedKeeps(s: State, i: nat, c: Conn)
    requires Mid(s, i) && i < |s.pfds| && s.pfds[i].fd in s.clients && SameCgi(s.clients[s.pfds[i].fd], c)
    ensures Mid(s.(clients := s.clients[s.pfds[i].fd := c]), i)
  {
    var fd := s.pfds[i].fd;
    var s' := s.(clients := s.clients[fd := c]);
    ReplacingKeeps(s, i, fd, c);
    forall k | k in s'.clients
      ensures ClientOk(s', i, k)
    {
      if k == fd {
        OwnEntryIsEarlier(s, i, fd);
        ClientChanged(s, s', i, k);
      } else {
        ClientKept(s, s', i, k, Accepted(0, 0));
      }
    }
  }

  // Reading a CGI pipe.

  /** A pipe was opened for one connection only. */
  lemma PipeHasOneOwner(log: seq<Event>, nextId: nat, id: nat, id': nat, pipe: int)
    requires LogOk(log, nextId) && SpawnedFor(log, id, pipe) && SpawnedFor(log, id', pipe)
    ensures id == id'
  {
    var a :| 0 <= a < |log| && log[a] == Event.Spawned(id, pipe);
    var b :| 0 <= b < |log| && log[b] == Event.Spawned(id', pipe);
    assert a == b;
  }

  lemma PipesDiffer(s: State, i: nat, k: int, l: int)
    requires Mid(s, i) && k in s.clients && l in s.clients && k != l && s.clients[k].cgi.Some? && s.clients[l].cgi.Some?
    ensures s.clients[k].cgi.value.readFd != s.clients[l].cgi.value.readFd
  {
    assert ClientOk(s, i, k) && ClientOk(s, i, l);
    if s.clients[k].cgi.value.readFd == s.clients[l].cgi.value.readFd {
      PipeHasOneOwner(s.log, s.nextId, s.clients[k].id, s.clients[l].id, s.clients[k].cgi.value.readFd);
    }
  }

  /** What is known when the entry of a CGI's pipe is handled. */
  lemma OwnPipeEntry(s: State, i: nat, k: int)
    requires Mid(s, i) && i < |s.pfds| && k in s.clients && OwnsPipe(s.clients[k], s.pfds[i].fd)
    ensures var c := s.clients[k];
            && c.cgiAdded && !c.cgi.value.done && Pos(s.pfds, c.cgi.value.readFd) == i && 0 < Pos(s.pfds, k) < i
            && Unanswered(s.log, c.id) && Unended(s.log, c.cgi.value.readFd) && c.id < s.nextId
            && SpawnedFor(s.log, c.id, c.cgi.value.readFd)
                && c.cgi.value.response == BytesRead(s.log, c.cgi.value.readFd)
  {
    assert ClientOk(s, i, k);
    PosOfEntry(s.pfds, i);
  }

  /** A pipe whose owner is unanswered has not been answered from. */
  lemma NotSentYet(log: seq<Event>, nextId: nat, id: nat, pipe: int)
    requires LogOk(log, nextId) && SpawnedFor(log, id, pipe) && Unanswered(log, id)
    ensures forall j :: 0 <= j < |log| && log[j].CgiSent? ==> log[j].pipe != pipe
    ensures SpawnedPipe(log, pipe)
  {
    forall j | 0 <= j < |log| && log[j].CgiSent?
      ensures log[j].pipe != pipe
    {
      SentByOwner(log, nextId, j);
      PipeTellsOwner(log, nextId, id, pipe, log[j].id, log[j].pipe);
    }
  }

  lemma SentByOwner(log: seq<Event>, nextId: nat, j: nat)
    requires LogOk(log, nextId) && j < |log| && log[j].CgiSent?
    ensures SpawnedFor(log, log[j].id, log[j].pipe)
  {
    var a :| 0 <= a < |log[..j]| && log[..j][a] == Event.Spawned(log[j].id, log[j].pipe);
    assert log[a] == Event.Spawned(log[j].id, log[j].pipe);
  }

  lemma PipeTellsOwner(log: seq<Event>, nextId: nat, id: nat, pipe: int, id': nat, pipe': int)
    requires LogOk(log, nextId) && SpawnedFor(log, id, pipe) && SpawnedFor(log, id', pipe')
    ensures pipe' == pipe ==> id' == id
  {
    if pipe' == pipe {
      PipeHasOneOwner(log, nextId, id, id', pipe);
    }
  }

  ghost predicate Globals(s: State, i: nat) {
    Table(s) && Descriptors(s) && PendingOk(s, i) && DroppedOk(s, i) && DistinctIds(s) && LogOk(s.log, s.nextId)
  }

  /** An event that is no spawn and touches no accepted connection keeps the global parts. */
  lemma GlobalsLog(s: State, i: nat, e: Event)
    requires Globals(s, i) && MayHappen(s.log, s.nextId, e) && !e.Spawned?
    requires s.pending.Some? ==> !About(e, s.pending.value.1.id, None)
    ensures Globals(Logging(s, e), i)
  {
    LogGrows(s.log, s.nextId, e);
    SpawnedAppend(s.log, e);
  }

  /** The event a read leaves in the log. */
  function ReadEvent(pipe: int, r: Received): Event {
    match r
    case Data(bytes) => PipeRead(pipe, bytes)
    case Error => PipeFailed(pipe)
  }

  lemma ReadGlobals(s: State, i: nat, k: int, r: Received)
    requires Mid(s, i) && i < |s.pfds| && k in s.clients && OwnsPipe(s.clients[k], s.pfds[i].fd)
    ensures Globals(ReadingPipe(s, k, r), i + 1)
  {
    var c, c' := s.clients[k], ReadingPipe(s, k, r).clients[k];
    OwnPipeEntry(s, i, k);
    ReplacingKeeps(s, i, k, c');
    NotSentYet(s.log, s.nextId, c.id, c.cgi.value.readFd);
    GlobalsLog(s.(clients := s.clients[k := c']), i + 1, ReadEvent(c.cgi.value.readFd, r));
  }

  lemma OtherClientAfterRead(s: State, i: nat, k: int, r: Received, l: int)
    requires Mid(s, i) && i < |s.pfds| && k in s.clients && OwnsPipe(s.clients[k], s.pfds[i].fd)
    requires l in s.clients && l != k
    ensures l in ReadingPipe(s, k, r).clients && ClientOk(ReadingPipe(s, k, r), i + 1, l)
  {
    if s.clients[l].cgi.Some? {
      PipesDiffer(s, i, k, l);
    }
    assert ClientOk(s, i, l);
    ClientKept(s, ReadingPipe(s, k, r), i, l, ReadEvent(s.clients[k].cgi.value.readFd, r));
  }

  /** The CGI of client `k` after a read of its pipe at entry `i`, before anything is done
      about it. */
  ghost predicate OwnRead(s1: State, i: nat, k: int) {
    && k in s1.clients && s1.clients[k].cgi.Some?
    && var c := s1.clients[k];
       var g := c.cgi.value;
       && c.isCgi && c.cgiAdded && c.id < s1.nextId
       && 0 < Pos(s1.pfds, k) < Pos(s1.pfds, g.readFd) == i && s1.pfds[Pos(s1.pfds, k)].wantsWrite
       && g.readFd !in s1.dropped && g.readFd !in s1.clients
       && SpawnedFor(s1.log, c.id, g.readFd) && g.response == BytesRead(s1.log, g.readFd)
       && Unanswered(s1.log, c.id) && (if g.done then JustEnded(s1.log, g.readFd) else Unended(s1.log, g.readFd))
  }

  /** The other clients meanwhile. */
  ghost predicate OthersRead(s1: State, i: nat, k: int)
    requires k in s1.clients && s1.clients[k].cgi.Some?
  {
    forall l :: l in s1.clients && l != k ==>
      && ClientOk(s1, i + 1, l)
      && (s1.clients[l].cgi.Some? ==>
          && s1.clients[l].cgi.value.readFd != s1.clients[k].cgi.value.readFd
          && s1.clients[l].cgi.value.readFd !in s1.clients)
  }

  lemma ReadFrame(s: State, k: int, r: Received)
    requires k in s.clients && s.clients[k].cgi.Some?
    ensures var s1 := ReadingPipe(s, k, r);
            && s1.pfds == s.pfds && s1.dropped == s.dropped && s1.nextId == s.nextId
                && s1.clients.Keys == s.clients.Keys
            && (forall l :: l in s.clients && l != k ==> s1.clients[l] == s.clients[l])
            && SameButRead(s.clients[k], s1.clients[k])
  {
  }

  ghost predicate SameButRead(c: Conn, c': Conn) {
    && c.cgi.Some? && c'.cgi.Some? && c'.cgi.value.readFd == c.cgi.value.readFd
    && c'.id == c.id && c'.isCgi == c.isCgi && c'.cgiAdded == c.cgiAdded
  }

  lemma OtherPipes(s: State, i: nat, k: int)
    requires Mid(s, i) && k in s.clients && s.clients[k].cgi.Some?
    ensures s.clients[k].cgi.value.readFd !in s.clients
    ensures forall l :: l in s.clients && l != k && s.clients[l].cgi.Some? ==>
              s.clients[l].cgi.value.readFd != s.clients[k].cgi.value.readFd
                  && s.clients[l].cgi.value.readFd !in s.clients
  {
    PipesAreNoClients(s, i);
    forall l | l in s.clients && l != k && s.clients[l].cgi.Some?
      ensures s.clients[l].cgi.value.readFd != s.clients[k].cgi.value.readFd
    {
      PipesDiffer(s, i, k, l);
    }
  }

  lemma SpawnedIsPipe(log: seq<Event>, id: nat, pipe: int)
    requires SpawnedFor(log, id, pipe)
    ensures SpawnedPipe(log, pipe)
  {
  }

  lemma ClientEntry(s: State, i: nat, k: int)
    requires Mid(s, i) && k in s.clients
    ensures Pos(s.pfds, k) > 0 && s.pfds[Pos(s.pfds, k)].wantsWrite && s.clients[k].id < s.nextId
  {
    assert ClientOk(s, i, k);
  }

  lemma OthersAreRead(s: State, i: nat, k: int, r: Received)
    requires Mid(s, i) && i < |s.pfds| && k in s.clients && OwnsPipe(s.clients[k], s.pfds[i].fd)
    ensures ReadingPipe(s, k, r).clients[k].cgi.Some? && OthersRead(ReadingPipe(s, k, r), i, k)
  {
    var s1 := ReadingPipe(s, k, r);
    ReadFrame(s, k, r);
    OtherPipes(s, i, k);
    forall l | l in s1.clients && l != k
      ensures ClientOk(s1, i + 1, l)
    {
      OtherClientAfterRead(s, i, k, r, l);
    }
  }

  /** What a read does to the record of the pipe. */
  lemma ReadIsLogged(s: State, k: int, r: Received)
    requires k in s.clients && s.clients[k].cgi.Some?
    requires var c := s.clients[k];
             var g := c.cgi.value;
             && SpawnedFor(s.log, c.id, g.readFd) && g.response == BytesRead(s.log, g.readFd)
             && !g.done && Unanswered(s.log, c.id) && Unended(s.log, g.readFd)
    ensures var s1 := ReadingPipe(s, k, r);
            var c := s1.clients[k];
            && c.cgi.Some?
            && var g := c.cgi.value;
               && SpawnedFor(s1.log, c.id, g.readFd) && g.response == BytesRead(s1.log, g.readFd)
               && Unanswered(s1.log, c.id) && (if g.done then JustEnded(s1.log, g.readFd)
                   else Unended(s1.log, g.readFd))
  {
    var e := ReadEvent(s.clients[k].cgi.value.readFd, r);
    SpawnedAppend(s.log, e);
    BytesReadAppend(s.log, e, e.pipe);
    assert (s.log + [e])[..|s.log|] == s.log;
    assert ReadingPipe(s, k, r).log == s.log + [e];
  }

  lemma OwnIsRead(s: State, i: nat, k: int, r: Received)
    requires Mid(s, i) && i < |s.pfds| && k in s.clients && OwnsPipe(s.clients[k], s.pfds[i].fd)
    ensures OwnRead(ReadingPipe(s, k, r), i, k)
  {
    OwnPipeEntry(s, i, k);
    ClientEntry(s, i, k);
    CgiIsFlagged(s, i, k);
    PipeNotDropped(s, i, k);
    OtherPipes(s, i, k);
    ReadIsLogged(s, k, r);
    ReadFrame(s, k, r);
  }

  lemma PipeNotDropped(s: State, i: nat, k: int)
    requires Mid(s, i) && k in s.clients && s.clients[k].cgi.Some? && !s.clients[k].cgi.value.done
    ensures s.clients[k].cgi.value.readFd !in s.dropped
  {
    assert ClientOk(s, i, k);
  }

  lemma FullReadKeeps(s1: State, i: nat, k: int)
    requires Globals(s1, i + 1) && OwnRead(s1, i, k) && OthersRead(s1, i, k) && !s1.clients[k].cgi.value.done
    ensures Mid(s1, i + 1)
  {
    assert ClientOk(s1, i + 1, k);
  }

  /** The answer event of a finished CGI. */
  function AnswerEvent(c: Conn, a: Answer): Event
    requires c.cgi.Some?
  {
    if a.exitFailure then Responded(c.id, a.response) else CgiSent(c.id, c.cgi.value.readFd, c.cgi.value.response)
  }

  /** Replacing a connection by one with the same id keeps the global parts. */
  lemma GlobalsReplaced(s: State, i: nat, k: int, c: Conn)
    requires Globals(s, i) && k in s.clients && c.id == s.clients[k].id
    ensures Globals(s.(clients := s.clients[k := c]), i)
  {
    var s' := s.(clients := s.clients[k := c]);
    assert s'.clients.Keys == s.clients.Keys;
    assert forall l :: l in s'.clients ==> s'.clients[l].id == s.clients[l].id;
  }

  lemma GlobalsDropped(s: State, i: nat, fd: int)
    requires Globals(s, i) && 0 < Pos(s.pfds, fd) < i
    ensures Globals(Dropping(s, fd), i)
  {
  }

  /** A finished CGI is answered. */
  function Answering(s1: State, k: int, a: Answer): State
    requires k in s1.clients && s1.clients[k].cgi.Some?
  {
    var c := s1.clients[k];
    Logging(if a.exitFailure then s1.(clients := s1.clients[k := c.(status := SERVER_ERROR)])
        else s1, AnswerEvent(c, a))
  }

  lemma AnsweringGlobals(s1: State, i: nat, k: int, a: Answer)
    requires Globals(s1, i) && k in s1.clients && s1.clients[k].cgi.Some?
    requires var c := s1.clients[k];
             && c.id < s1.nextId && Unanswered(s1.log, c.id)
                 && Delivered(s1.log, c.id, c.cgi.value.readFd, c.cgi.value.response)
    ensures Globals(Answering(s1, k, a), i)
  {
    var c := s1.clients[k];
    var s2 := if a.exitFailure then s1.(clients := s1.clients[k := c.(status := SERVER_ERROR)]) else s1;
    GlobalsReplaced(s1, i, k, c.(status := SERVER_ERROR));
    GlobalsLog(s2, i, AnswerEvent(c, a));
  }

  lemma FinishingIsAnswering(s1: State, k: int, a: Answer)
    requires k in s1.clients && s1.clients[k].cgi.Some?
    ensures FinishingCgi(s1, k, a) == Dropping(Dropping(Answering(s1, k, a), s1.clients[k].cgi.value.readFd), k)
  {
  }

  lemma FinishedGlobals(s1: State, i: nat, k: int, a: Answer)
    requires Globals(s1, i + 1) && OwnRead(s1, i, k) && s1.clients[k].cgi.value.done
    ensures Globals(FinishingCgi(s1, k, a), i + 1)
  {
    var s2 := Answering(s1, k, a);
    var pipe := s1.clients[k].cgi.value.readFd;
    AnsweringGlobals(s1, i + 1, k, a);
    GlobalsDropped(s2, i + 1, pipe);
    GlobalsDropped(Dropping(s2, pipe), i + 1, k);
    FinishingIsAnswering(s1, k, a);
  }

  lemma ClientKeptAt(s: State, s': State, i: nat, k: int, e: Event)
    requires k in s.clients && k in s'.clients && s'.clients[k] == s.clients[k] && s'.pfds == s.pfds
    requires s'.nextId >= s.nextId
    requires forall d :: d in s.dropped ==> d in s'.dropped
    requires LogBeside(s.log, s'.log, e, s.clients[k])
    requires k in s'.dropped ==> k in s.dropped || s.clients[k].cgi.None? || s.clients[k].cgiAdded
    requires s.clients[k].cgi.Some? ==>
        s.clients[k].cgi.value.readFd in s'.dropped ==> s.clients[k].cgi.value.readFd in s.dropped
    requires ClientOk(s, i, k)
    ensures ClientOk(s', i, k)
  {
    ClientKept(s, s', i, k, e);
  }

  lemma FinishedOthers(s1: State, i: nat, k: int, a: Answer, l: int)
    requires DistinctIds(s1) && OwnRead(s1, i, k) && OthersRead(s1, i, k) && l in s1.clients && l != k
    ensures l in FinishingCgi(s1, k, a).clients && ClientOk(FinishingCgi(s1, k, a), i + 1, l)
  {
    assert ClientOk(s1, i + 1, l);
    ClientKeptAt(s1, FinishingCgi(s1, k, a), i + 1, l, AnswerEvent(s1.clients[k], a));
  }

  lemma FinishedOwn(s1: State, i: nat, k: int, a: Answer)
    requires OwnRead(s1, i, k) && s1.clients[k].cgi.value.done
    ensures k in FinishingCgi(s1, k, a).clients && ClientOk(FinishingCgi(s1, k, a), i + 1, k)
  {
    var e := AnswerEvent(s1.clients[k], a);
    SpawnedAppend(s1.log, e);
    BytesReadAppend(s1.log, e, s1.clients[k].cgi.value.readFd);
  }

  lemma FinishedReadKeeps(s1: State, i: nat, k: int, a: Answer)
    requires Globals(s1, i + 1) && OwnRead(s1, i, k) && OthersRead(s1, i, k) && s1.clients[k].cgi.value.done
    ensures Mid(FinishingCgi(s1, k, a), i + 1)
  {
    var s3 := FinishingCgi(s1, k, a);
    FinishedGlobals(s1, i, k, a);
    assert s3.clients.Keys == s1.clients.Keys;
    forall l | l in s3.clients
      ensures ClientOk(s3, i + 1, l)
    {
      if l == k {
        FinishedOwn(s1, i, k, a);
      } else {
        FinishedOthers(s1, i, k, a, l);
      }
    }
  }

  lemma ReadingCgiKeeps(s: State, i: nat, k: int, a: Answer)
    requires Mid(s, i) && i < |s.pfds| && k in s.clients && OwnsPipe(s.clients[k], s.pfds[i].fd)
    ensures Mid(ReadingCgi(s, k, a), i + 1)
  {
    var s1 := ReadingPipe(s, k, a.received);
    ReadGlobals(s, i, k, a.received);
    OwnIsRead(s, i, k, a.received);
    OthersAreRead(s, i, k, a.received);
    if s1.clients[k].cgi.value.done {
      FinishedReadKeeps(s1, i, k, a);
    } else {
      FullReadKeeps(s1, i, k);
    }
  }

  /** Handling one entry keeps the invariant. */
  lemma EntryKeeps(s: State, i: nat, a: Answer)
    requires Mid(s, i) && i < |s.pfds| && Legal(s, i, a)
    ensures Entry(s, i, a).Alive? ==> Mid(Entry(s, i, a).state, i + 1)
  {
    var fd := s.pfds[i].fd;
    if a.hangup {
      HangupKeeps(s, i);
    } else if a.readable {
      if fd == s.listener {
        AcceptKeeps(s, i, a.descriptor);
      } else if Owner(s, fd).Some? {
        ReadingCgiKeeps(s, i, Owner(s, fd).value, a);
      } else if fd in s.clients {
        ReceivingKeeps(s, i, a.received);
      }
    } else if a.writable {
      if fd in s.clients {
        ServingKeeps(s, i, a);
      }
    } else {
      NothingKeeps(s, i);
    }
  }
}
