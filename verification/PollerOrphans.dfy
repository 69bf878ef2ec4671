/** Entries of the poll vector that have lost their owner: a client that is dropped while its
    CGI runs leaves the CGI's pipe behind, and reading it is fatal. */
module PollerOrphans {
  import opened CppStrings
  import opened PollerState
  import opened PollerInvariant
  import opened PollerRounds

  predicate Owned(s: State, fd: int) {
    exists k :: k in s.clients && OwnsPipe(s.clients[k], fd)
  }

  /** Entries left behind by clients that were dropped while their CGI was running. */
  function Orphans(s: State): set<int> {
    set e | e in s.pfds && e.fd != s.listener && e.fd !in s.clients && !Owned(s, e.fd) :: e.fd
  }

  /** The CGI pipe of a connection stays, or is opened now as `pipe`. */
  predicate SamePipe(c: Conn, c': Conn, pipe: int) {
    if c.cgi.Some? then c'.cgi.Some? && c'.cgi.value.readFd == c.cgi.value.readFd
    else c'.cgi.Some? ==> c'.cgi.value.readFd == pipe
  }

  predicate SamePipes(clients: map<int, Conn>, clients': map<int, Conn>, pipe: int) {
    clients'.Keys == clients.Keys && forall k :: k in clients ==> SamePipe(clients[k], clients'[k], pipe)
  }

  lemma ReplacedPipes(clients: map<int, Conn>, k: int, c: Conn, pipe: int)
    requires k in clients && SamePipe(clients[k], c, pipe)
    ensures SamePipes(clients, clients[k := c], pipe)
  {
  }

  lemma ReadingCgiPipes(s: State, k: int, a: Answer)
    requires k in s.clients && s.clients[k].cgi.Some?
    ensures SamePipes(s.clients, ReadingCgi(s, k, a).clients, a.descriptor)
  {
    var s' := ReadingPipe(s, k, a.received);
    ReadFrame(s, k, a.received);
    FinishingCgiPipes(s', k, a);
  }

  lemma FinishingCgiPipes(s: State, k: int, a: Answer)
    requires k in s.clients && s.clients[k].cgi.Some?
    ensures SamePipes(s.clients, FinishingCgi(s, k, a).clients, a.descriptor)
  {
    ReplacedPipes(s.clients, k, s.clients[k].(status := SERVER_ERROR), a.descriptor);
  }

  lemma ServingPipes(s: State, fd: int, a: Answer)
    requires fd in s.clients
    ensures SamePipes(s.clients, Serving(s, fd, a).clients, a.descriptor)
  {
    var c := Processed(s.clients[fd], a);
    ReplacedPipes(s.clients, fd, c, a.descriptor);
    if c.cgi.None? {
      ReplacedPipes(s.clients, fd, c.(cgi := Some(Cgi(a.descriptor, "", false))), a.descriptor);
    }
  }

  /** Handling an entry changes no connection's descriptor, and a CGI's pipe only by opening
      one. */
  lemma EntryKeepsPipes(s: State, i: nat, a: Answer)
    requires i < |s.pfds| && Entry(s, i, a).Alive?
    ensures SamePipes(s.clients, Entry(s, i, a).state.clients, a.descriptor)
  {
    var fd := s.pfds[i].fd;
    if a.hangup {
    } else if a.readable {
      if fd == s.listener {
      } else if Owner(s, fd).Some? {
        ReadingCgiPipes(s, Owner(s, fd).value, a);
      } else {
        ReplacedPipes(s.clients, fd, Receiving(s, fd, a.received).clients[fd], a.descriptor);
      }
    } else if a.writable {
      ServingPipes(s, fd, a);
    }
  }

  lemma SamePipeSameOwner(clients: map<int, Conn>, clients': map<int, Conn>, pipe: int, fd: int)
    requires SamePipes(clients, clients', pipe) && fd != pipe
    ensures (exists k :: k in clients' && OwnsPipe(clients'[k], fd))
        <==> (exists k :: k in clients && OwnsPipe(clients[k], fd))
  {
    if k :| k in clients && OwnsPipe(clients[k], fd) {
      assert OwnsPipe(clients'[k], fd);
    }
    if k :| k in clients' && OwnsPipe(clients'[k], fd) {
      assert OwnsPipe(clients[k], fd);
    }
  }

  /** A CGI is started only on a pipe that has no entry, so entries keep their owners. */
  lemma EntryKeepsOwners(s: State, i: nat, a: Answer)
    requires Mid(s, i) && i < |s.pfds| && Legal(s, i, a) && Entry(s, i, a).Alive?
    ensures var t := Entry(s, i, a).state;
            && t.clients.Keys == s.clients.Keys
            && forall fd :: Pos(s.pfds, fd) != NPOS ==> (Owned(t, fd) <==> Owned(s, fd))
  {
    var t := Entry(s, i, a).state;
    EntryKeepsPipes(s, i, a);
    forall fd | Pos(s.pfds, fd) != NPOS
      ensures Owned(t, fd) <==> Owned(s, fd)
    {
      assert fd != a.descriptor;
      SamePipeSameOwner(s.clients, t.clients, a.descriptor, fd);
    }
  }

  lemma EntryKeepsOrphans(s: State, i: nat, a: Answer)
    requires Mid(s, i) && i < |s.pfds| && Legal(s, i, a) && Entry(s, i, a).Alive?
    ensures Orphans(Entry(s, i, a).state) == Orphans(s)
  {
    EntryKeepsOwners(s, i, a);
    forall e | e in s.pfds
      ensures Pos(s.pfds, e.fd) != NPOS
    {
      PosFinds(s.pfds, e.fd);
    }
  }

  // What stops the loop.

  /** Why handling entry `j` stops the loop, told from the state the round starts with: its
      descriptor has lost its owner and can be read, or serving its client fails. */
  function CauseAt(s: State, j: nat, a: Answer): Option<Cause>
    requires j < |s.pfds|
  {
    var fd := s.pfds[j].fd;
    if a.hangup then None
    else if a.readable then (if fd in Orphans(s) then Some(NoConnection) else None)
    else if a.writable && fd in s.clients then Fatal(s.clients[fd], a)
    else None
  }

  function StopOf(o: Outcome): Option<Cause> {
    match o
    case Alive(_) => None
    case Dead(_, cause) => Some(cause)
  }

  lemma {:induction false} EntryDiesExactly(s: State, i: nat, a: Answer)
    requires Mid(s, i) && i < |s.pfds| && Legal(s, i, a)
    ensures StopOf(Entry(s, i, a)) == CauseAt(s, i, a)
  {
    var fd := s.pfds[i].fd;
    assert s.pfds[i] in s.pfds;
    assert Owner(s, fd).Some? <==> Owned(s, fd);
    assert s.pfds[i].wantsWrite ==> fd in s.clients;
  }

  lemma ReadingCgiFrame(s: State, k: int, a: Answer)
    requires k in s.clients && s.clients[k].cgi.Some?
    ensures forall l ::
        l in s.clients && l != k ==> l in ReadingCgi(s, k, a).clients && ReadingCgi(s, k, a).clients[l] == s.clients[l]
  {
    ReadFrame(s, k, a.received);
  }

  lemma ServingFrame(s: State, fd: int, a: Answer, l: int)
    requires fd in s.clients && l in s.clients && l != fd
    ensures l in Serving(s, fd, a).clients && Serving(s, fd, a).clients[l] == s.clients[l]
  {
  }

  lemma EntryFrame(s: State, i: nat, a: Answer, l: int)
    requires i < |s.pfds| && Entry(s, i, a).Alive?
    requires l in s.clients && l != s.pfds[i].fd && Owner(s, s.pfds[i].fd) != Some(l)
    ensures var t := Entry(s, i, a).state; l in t.clients && t.clients[l] == s.clients[l]
  {
    var fd := s.pfds[i].fd;
    if a.hangup {
    } else if a.readable {
      if fd != s.listener && Owner(s, fd).Some? {
        ReadingCgiFrame(s, Owner(s, fd).value, a);
      }
    } else if a.writable {
      ServingFrame(s, fd, a, l);
    }
  }

  /** A client whose entry is still ahead is not touched: only its own entry and, behind that,
      the one of its CGI's pipe change it. */
  lemma LaterClientKept(s: State, i: nat, a: Answer, j: nat)
    requires Mid(s, i) && i < j < |s.pfds| && Entry(s, i, a).Alive? && s.pfds[j].fd in s.clients
    ensures var t := Entry(s, i, a).state;
            s.pfds[j].fd in t.clients && t.clients[s.pfds[j].fd] == s.clients[s.pfds[j].fd]
  {
    var owner := Owner(s, s.pfds[i].fd);
    PosOfEntry(s.pfds, j);
    if owner.Some? {
      OwnPipeEntry(s, i, owner.value);
    }
    EntryFrame(s, i, a, s.pfds[j].fd);
  }

  lemma LaterCauseKept(s: State, i: nat, a: Answer, j: nat, b: Answer)
    requires Mid(s, i) && i < j < |s.pfds| && Legal(s, i, a) && Entry(s, i, a).Alive?
    ensures CauseAt(Entry(s, i, a).state, j, b) == CauseAt(s, j, b)
  {
    EntryKeepsOrphans(s, i, a);
    EntryKeepsPipes(s, i, a);
    if s.pfds[j].fd in s.clients {
      LaterClientKept(s, i, a, j);
    }
  }

  /** The first of the causes from entry `i` on. */
  function FirstCause(s: State, i: nat, answers: seq<Answer>): Option<Cause>
    requires i <= |s.pfds| == |answers|
    decreases |s.pfds| - i
  {
    if i == |s.pfds| then None
    else if CauseAt(s, i, answers[i]).Some? then CauseAt(s, i, answers[i])
    else FirstCause(s, i + 1, answers)
  }

  lemma {:induction false} SameCauses(s: State, t: State, i: nat, answers: seq<Answer>)
    requires i <= |s.pfds| == |answers| && t.pfds == s.pfds
    requires forall j :: i <= j < |s.pfds| ==> CauseAt(t, j, answers[j]) == CauseAt(s, j, answers[j])
    ensures FirstCause(t, i, answers) == FirstCause(s, i, answers)
    decreases |s.pfds| - i
  {
    if i < |s.pfds| {
      SameCauses(s, t, i + 1, answers);
    }
  }

  lemma {:induction false} FirstCauseExists(s: State, i: nat, answers: seq<Answer>)
    requires i <= |s.pfds| == |answers|
    ensures FirstCause(s, i, answers).Some? <==> exists j :: i <= j < |s.pfds| && CauseAt(s, j, answers[j]).Some?
    decreases |s.pfds| - i
  {
    if i < |s.pfds| {
      FirstCauseExists(s, i + 1, answers);
    }
  }

  lemma {:induction false} DispatchDiesExactly(s: State, i: nat, answers: seq<Answer>)
    requires i <= |s.pfds| == |answers| && Mid(s, i) && LegalFrom(s, i, answers)
    ensures StopOf(Dispatch(s, i, answers)) == FirstCause(s, i, answers)
    decreases |s.pfds| - i
  {
    if i < |s.pfds| {
      EntryDiesExactly(s, i, answers[i]);
      EntryKeeps(s, i, answers[i]);
      if Entry(s, i, answers[i]).Alive? {
        var t := Entry(s, i, answers[i]).state;
        DispatchDiesExactly(t, i + 1, answers);
        forall j | i + 1 <= j < |s.pfds|
          ensures CauseAt(t, j, answers[j]) == CauseAt(s, j, answers[j])
        {
          LaterCauseKept(s, i, answers[i], j, answers[j]);
        }
        SameCauses(s, t, i + 1, answers);
      }
    }
  }

  /** A round stops the loop exactly when some entry has a cause: a pipe whose client is gone
      has something to read, or a client is served in vain. The first cause is the one. */
  lemma {:induction false} RoundDiesExactly(s: State, answers: seq<Answer>)
    requires Inv(s) && |answers| == |s.pfds| && LegalRound(s, answers)
    ensures Round(s, answers).Dead? <==> exists j :: 0 <= j < |s.pfds| && CauseAt(s, j, answers[j]).Some?
    ensures StopOf(Round(s, answers)) == FirstCause(s, 0, answers)
  {
    var s0 := s.(pending := None);
    PendingHasNoOrphans(s);
    FirstCauseExists(s, 0, answers);
    SameCauses(s, s0, 0, answers);
    DispatchDiesExactly(s0, 0, answers);
    if !AnyReady(answers) {
      assert forall j :: 0 <= j < |answers| ==> !Ready(answers[j]);
    }
  }

  lemma PendingHasNoOrphans(s: State)
    ensures Orphans(s.(pending := None)) == Orphans(s)
  {
    assert forall fd :: Owned(s.(pending := None), fd) <==> Owned(s, fd);
  }

  // Orphans after a round.

  /** No client that is being dropped has a CGI still running. */
  ghost predicate NoneAbandoned(s: State) {
    forall k :: k in s.clients && k in s.dropped && s.clients[k].cgi.Some? ==> s.clients[k].cgi.value.done
  }

  function FdSet(pfds: seq<PollFd>): set<int> {
    set e | e in pfds :: e.fd
  }

  lemma {:induction false} PipesJoinEntries(s: State, keys: seq<int>, e: PollFd)
    requires forall i :: 0 <= i < |keys| ==> keys[i] in s.clients
    ensures e in WithPipes(s, keys).pfds && e !in s.pfds ==> exists k :: k in s.clients && OwnsPipe(s.clients[k], e.fd)
    ensures forall fd :: Owned(WithPipes(s, keys), fd) <==> Owned(s, fd)
    ensures WithPipes(s, keys).clients.Keys == s.clients.Keys && WithPipes(s, keys).listener == s.listener
    ensures e in s.pfds ==> e in WithPipes(s, keys).pfds
    decreases |keys|
  {
    if keys != [] {
      var s1 := WithPipe(s, keys[0]);
      assert s1.clients.Keys == s.clients.Keys;
      assert forall k, fd :: k in s.clients ==> (OwnsPipe(s1.clients[k], fd) <==> OwnsPipe(s.clients[k], fd));
      assert forall fd :: Owned(s1, fd) <==> Owned(s, fd);
      PipesJoinEntries(s1, keys[1..], e);
      if e in s1.pfds && e !in s.pfds {
        assert OwnsPipe(s.clients[keys[0]], e.fd);
      }
    }
  }

  lemma OwnersAfterDeletion(s: State, t: State, u: State, fd: int)
    requires t.clients == s.clients - Gone(s.dropped) && t.pending == s.pending
    requires u == WithConnection(t)
    requires s.pending.Some? ==> s.pending.value.1.cgi.None?
    ensures Owned(u, fd) <==> exists k :: k in s.clients && k !in s.dropped && OwnsPipe(s.clients[k], fd)
  {
    var mine := set k | k in u.clients && OwnsPipe(u.clients[k], fd);
    forall k | k in s.clients && k !in s.dropped && OwnsPipe(s.clients[k], fd)
      ensures k in mine
    {
      assert k in t.clients;
    }
  }

  /** Adding entries leaves the descriptors without an owner as they are. */
  lemma OrphansAdded(t: State, fd: int)
    requires t.pending.Some? ==> t.pending.value.0 !in t.clients
    ensures var u := WithConnection(t);
            fd in Orphans(Added(t)) <==> fd in FdSet(t.pfds) && fd != t.listener && fd !in u.clients && !Owned(u, fd)
  {
    var u := WithConnection(t);
    var keys := SortedKeys(u.clients.Keys);
    var v := WithPipes(u, keys);
    if fd in Orphans(v) {
      var e :| e in v.pfds && e.fd == fd && e.fd != v.listener && e.fd !in v.clients && !Owned(v, e.fd);
      PipesJoinEntries(u, keys, e);
      assert e in u.pfds;
      assert e in t.pfds;
    }
    if fd in FdSet(t.pfds) {
      var e :| e in t.pfds && e.fd == fd;
      PipesJoinEntries(u, keys, e);
      assert e in u.pfds;
    }
  }

  /** The entries after a round that have no owner are those that had none, and those whose
      owner is dropped. */
  lemma OrphanOrigins(s: State, n: nat, fd: int)
    requires Mid(s, n)
    ensures fd in Orphans(Added(Deleted(s))) <==>
              && fd !in s.dropped && Pos(s.pfds, fd) != NPOS && fd != s.listener && fd !in s.clients
              && forall k :: k in s.clients && OwnsPipe(s.clients[k], fd) ==> k in s.dropped
  {
    DeletionFilters(s);
    var t := Deleted(s);
    OrphansAdded(t, fd);
    OwnersAfterDeletion(s, t, WithConnection(t), fd);
    KeptFds(s.pfds, Gone(s.dropped), fd);
    PendingIsNoEntry(s, n);
  }

  lemma KeptFds(pfds: seq<PollFd>, gone: set<int>, fd: int)
    ensures fd in FdSet(Kept(pfds, gone)) <==> Pos(pfds, fd) != NPOS && fd !in gone
  {
    KeptMembers(pfds, gone);
    PosFinds(pfds, fd);
    if fd in FdSet(Kept(pfds, gone)) {
      var e :| e in Kept(pfds, gone) && e.fd == fd;
      assert e in pfds;
    }
    if Pos(pfds, fd) != NPOS && fd !in gone {
      assert pfds[Pos(pfds, fd)] in Kept(pfds, gone);
    }
  }

  lemma PendingIsNoEntry(s: State, n: nat)
    requires Mid(s, n)
    ensures s.pending.Some? ==>
        Pos(s.pfds, s.pending.value.0) == NPOS && s.pending.value.0 !in s.clients && s.pending.value.1.cgi.None?
  {
  }

  lemma AbandonedPipe(s: State, n: nat, k: int)
    requires Mid(s, n) && k in s.clients && k in s.dropped && s.clients[k].cgi.Some? && !s.clients[k].cgi.value.done
    ensures var fd := s.clients[k].cgi.value.readFd;
            && fd !in s.dropped && Pos(s.pfds, fd) != NPOS && fd != s.listener && fd !in s.clients
            && forall l :: l in s.clients && OwnsPipe(s.clients[l], fd) ==> l in s.dropped
  {
    var fd := s.clients[k].cgi.value.readFd;
    assert ClientOk(s, n, k);
    SpawnedIsPipe(s.log, s.clients[k].id, fd);
    forall l | l in s.clients && OwnsPipe(s.clients[l], fd)
      ensures l in s.dropped
    {
      if l != k {
        PipesDiffer(s, n, k, l);
      }
    }
  }

  /** The pipes of the CGIs that dropped clients leave running. */
  function AbandonedPipes(s: State): set<int> {
    set k | k in s.clients && k in s.dropped && s.clients[k].cgi.Some? && !s.clients[k].cgi.value.done ::
      s.clients[k].cgi.value.readFd
  }

  ghost predicate OrphansSpared(s: State) {
    forall fd :: fd in Orphans(s) ==> fd !in s.dropped
  }

  lemma OrphansMember(s: State, n: nat, fd: int)
    requires Mid(s, n) && OrphansSpared(s)
    ensures fd in Orphans(Added(Deleted(s))) <==> fd in Orphans(s) || fd in AbandonedPipes(s)
  {
    OrphanOrigins(s, n, fd);
    PosFinds(s.pfds, fd);
    if Pos(s.pfds, fd) != NPOS {
      assert s.pfds[Pos(s.pfds, fd)] in s.pfds;
    }
    if fd in AbandonedPipes(s) {
      var k :| k in s.clients && k in s.dropped && s.clients[k].cgi.Some? && !s.clients[k].cgi.value.done
               && s.clients[k].cgi.value.readFd == fd;
      AbandonedPipe(s, n, k);
    }
    if k :| k in s.clients && k in s.dropped && OwnsPipe(s.clients[k], fd) && fd !in s.dropped {
      DroppedOwner(s, n, k);
    }
  }

  lemma DroppedOwner(s: State, n: nat, k: int)
    requires Mid(s, n) && k in s.clients && k in s.dropped
    requires s.clients[k].cgi.Some? && s.clients[k].cgi.value.readFd !in s.dropped
    ensures s.clients[k].cgi.value.readFd in AbandonedPipes(s)
  {
    assert ClientOk(s, n, k);
  }

  /** The entries without an owner after a round are those that had none before, and the
      pipes of the clients it drops while their CGIs are running. */
  lemma OrphansExactly(s: State, n: nat)
    requires Mid(s, n) && OrphansSpared(s)
    ensures Orphans(Added(Deleted(s))) == Orphans(s) + AbandonedPipes(s)
  {
    forall fd
      ensures fd in Orphans(Added(Deleted(s))) <==> fd in Orphans(s) + AbandonedPipes(s)
    {
      OrphansMember(s, n, fd);
    }
  }

  lemma ReadingCgiDrops(s: State, k: int, a: Answer, d: int)
    requires k in s.clients && s.clients[k].cgi.Some? && d in ReadingCgi(s, k, a).dropped
    ensures d in s.dropped || d == k || d == s.clients[k].cgi.value.readFd
  {
    ReadFrame(s, k, a.received);
  }

  lemma EntryDrops(s: State, i: nat, a: Answer, d: int)
    requires i < |s.pfds| && Entry(s, i, a).Alive? && d in Entry(s, i, a).state.dropped
    ensures || d in s.dropped || d in s.clients
            || (d == s.pfds[i].fd && (a.hangup || Owner(s, s.pfds[i].fd).Some?))
  {
    var fd := s.pfds[i].fd;
    if a.hangup {
    } else if a.readable {
      if fd != s.listener && Owner(s, fd).Some? {
        ReadingCgiDrops(s, Owner(s, fd).value, a, d);
      }
    } else if a.writable {
      ServingDrops(s, fd, a, d);
    }
  }

  lemma ServingDrops(s: State, fd: int, a: Answer, d: int)
    requires fd in s.clients && d in Serving(s, fd, a).dropped
    ensures d in s.dropped || d == fd
  {
  }

  /** What an entry adds to the drop stack belongs to a client. */
  lemma DroppedHaveOwners(s: State, i: nat, a: Answer, d: int)
    requires Mid(s, i) && i < |s.pfds| && Legal(s, i, a) && Entry(s, i, a).Alive?
    requires d in Entry(s, i, a).state.dropped && d !in s.dropped
    ensures d in s.clients || Owned(s, d)
  {
    EntryDrops(s, i, a, d);
  }

  lemma EntrySparesOrphans(s: State, i: nat, a: Answer)
    requires Mid(s, i) && i < |s.pfds| && Legal(s, i, a) && Entry(s, i, a).Alive? && OrphansSpared(s)
    ensures OrphansSpared(Entry(s, i, a).state)
  {
    EntryKeepsOrphans(s, i, a);
    forall fd | fd in Orphans(s)
      ensures fd !in Entry(s, i, a).state.dropped
    {
      if fd in Entry(s, i, a).state.dropped {
        DroppedHaveOwners(s, i, a, fd);
      }
    }
  }

  lemma {:induction false} DispatchKeepsOrphans(s: State, i: nat, answers: seq<Answer>)
    requires i <= |s.pfds| == |answers| && Mid(s, i) && LegalFrom(s, i, answers) && OrphansSpared(s)
    requires Dispatch(s, i, answers).Alive?
    ensures var t := Dispatch(s, i, answers).state; Orphans(t) == Orphans(s) && OrphansSpared(t)
    decreases |s.pfds| - i
  {
    if i < |s.pfds| {
      EntryKeeps(s, i, answers[i]);
      EntryKeepsOrphans(s, i, answers[i]);
      EntrySparesOrphans(s, i, answers[i]);
      DispatchKeepsOrphans(Entry(s, i, answers[i]).state, i + 1, answers);
    }
  }

  /** The orphans of a round: the old ones and the pipes abandoned while it was dispatched. */
  lemma {:induction false} RoundOrphans(s: State, answers: seq<Answer>)
    requires Inv(s) && |answers| == |s.pfds| && LegalRound(s, answers) && Round(s, answers).Alive?
    ensures var dispatched := Dispatch(s.(pending := None), 0, answers);
            && dispatched.Alive?
            && Orphans(Round(s, answers).state) == Orphans(s) + AbandonedPipes(dispatched.state)
  {
    var s0 := s.(pending := None);
    PendingHasNoOrphans(s);
    if AnyReady(answers) {
      DispatchKeeps(s0, 0, answers);
      DispatchKeepsOrphans(s0, 0, answers);
      OrphansExactly(Dispatch(s0, 0, answers).state, |s0.pfds|);
    } else {
      QuietDispatch(s0, 0, answers);
    }
  }

  lemma {:induction false} QuietDispatch(s: State, i: nat, answers: seq<Answer>)
    requires i <= |s.pfds| == |answers| && !AnyReady(answers)
    ensures Dispatch(s, i, answers) == Alive(s)
    decreases |s.pfds| - i
  {
    if i < |s.pfds| {
      assert !Ready(answers[i]);
      QuietDispatch(s, i + 1, answers);
    }
  }

  // When nobody is abandoned.

  /** A client that owns a CGI hangs up, or is read from with nothing received. */
  predicate Abandons(s: State, i: nat, a: Answer)
    requires i < |s.pfds|
  {
    var fd := s.pfds[i].fd;
    && fd in s.clients && s.clients[fd].cgi.Some?
    && (a.hangup || (a.readable && Receiving(s, fd, a.received).clients[fd].raw == ""))
  }

  /** A client is served in vain. */
  predicate Fails(s: State, i: nat, a: Answer)
    requires i < |s.pfds|
  {
    !a.hangup && !a.readable && a.writable && s.pfds[i].fd in s.clients && Fatal(s.clients[s.pfds[i].fd], a).Some?
  }

  predicate CalmFrom(s: State, i: nat, answers: seq<Answer>)
    requires i <= |s.pfds| && |answers| == |s.pfds|
    decreases |s.pfds| - i
  {
    i < |s.pfds| ==>
      && !Abandons(s, i, answers[i]) && !Fails(s, i, answers[i])
      && (Entry(s, i, answers[i]).Alive? ==> CalmFrom(Entry(s, i, answers[i]).state, i + 1, answers))
  }

  predicate CalmRound(s: State, answers: seq<Answer>)
    requires |answers| == |s.pfds|
  {
    CalmFrom(s.(pending := None), 0, answers)
  }

  lemma CalmHangup(s: State, i: nat, a: Answer)
    requires i < |s.pfds| && NoneAbandoned(s) && a.hangup && !Abandons(s, i, a)
    ensures NoneAbandoned(Dropping(s, s.pfds[i].fd))
  {
  }

  lemma CalmReading(s: State, i: nat, k: int, a: Answer)
    requires Mid(s, i) && i < |s.pfds| && NoneAbandoned(s) && k in s.clients && OwnsPipe(s.clients[k], s.pfds[i].fd)
    ensures NoneAbandoned(ReadingCgi(s, k, a))
  {
    OwnPipeEntry(s, i, k);
    OtherPipes(s, i, k);
    CalmRead(s, k, a);
  }

  lemma CalmRead(s: State, k: int, a: Answer)
    requires NoneAbandoned(s) && k in s.clients && s.clients[k].cgi.Some? && !s.clients[k].cgi.value.done
    requires s.clients[k].cgi.value.readFd !in s.clients
    ensures NoneAbandoned(ReadingCgi(s, k, a))
  {
    var s1 := ReadingPipe(s, k, a.received);
    assert k !in s.dropped;
    assert s1.clients.Keys == s.clients.Keys && s1.dropped == s.dropped;
    var t := ReadingCgi(s, k, a);
    if s1.clients[k].cgi.value.done {
      assert t.clients[k].cgi.value.done;
      assert forall l ::
          l in s.clients && l != k ==> t.clients[l] == s.clients[l] && (l in t.dropped ==> l in s.dropped);
    }
  }

  lemma CalmReceiving(s: State, i: nat, a: Answer)
    requires i < |s.pfds| && NoneAbandoned(s) && s.pfds[i].fd in s.clients && a.readable && !Abandons(s, i, a)
    ensures NoneAbandoned(Receiving(s, s.pfds[i].fd, a.received))
  {
  }

  lemma CalmServing(s: State, i: nat, a: Answer)
    requires Mid(s, i) && i < |s.pfds| && NoneAbandoned(s) && s.pfds[i].fd in s.clients
    ensures NoneAbandoned(Serving(s, s.pfds[i].fd, a))
  {
    var fd := s.pfds[i].fd;
    PosOfEntry(s.pfds, i);
    assert fd !in s.dropped;
    if s.clients[fd].cgi.Some? {
      CgiIsFlagged(s, i, fd);
    }
    CalmServed(s, fd, a);
  }

  lemma CalmServed(s: State, fd: int, a: Answer)
    requires NoneAbandoned(s) && fd in s.clients && fd !in s.dropped
    requires s.clients[fd].cgi.Some? ==> s.clients[fd].isCgi
    ensures NoneAbandoned(Serving(s, fd, a))
  {
    var t := Serving(s, fd, a);
    forall l | l in t.clients && l in t.dropped && t.clients[l].cgi.Some?
      ensures t.clients[l].cgi.value.done
    {
      ServingDrops(s, fd, a, l);
      if l == fd {
        ServedIsDropped(s, fd, a);
      } else {
        ServingPipes(s, fd, a);
        ServingFrame(s, fd, a, l);
      }
    }
  }

  /** A client that is dropped when it has been served owns no CGI. */
  lemma ServedIsDropped(s: State, fd: int, a: Answer)
    requires fd in s.clients && fd !in s.dropped && fd in Serving(s, fd, a).dropped
    requires s.clients[fd].cgi.Some? ==> s.clients[fd].isCgi
    ensures Serving(s, fd, a).clients[fd].cgi.None?
  {
  }

  lemma EntryCalm(s: State, i: nat, a: Answer)
    requires Mid(s, i) && i < |s.pfds| && NoneAbandoned(s) && !Abandons(s, i, a) && Entry(s, i, a).Alive?
    ensures NoneAbandoned(Entry(s, i, a).state)
  {
    var fd := s.pfds[i].fd;
    if a.hangup {
      CalmHangup(s, i, a);
    } else if a.readable {
      if fd == s.listener {
      } else if Owner(s, fd).Some? {
        CalmReading(s, i, Owner(s, fd).value, a);
      } else {
        CalmReceiving(s, i, a);
      }
    } else if a.writable {
      CalmServing(s, i, a);
    }
  }

  lemma {:induction false} DispatchCalm(s: State, i: nat, answers: seq<Answer>)
    requires i <= |s.pfds| && |answers| == |s.pfds| && Mid(s, i) && LegalFrom(s, i, answers)
    requires NoneAbandoned(s) && CalmFrom(s, i, answers) && Orphans(s) == {}
    ensures Dispatch(s, i, answers).Alive?
    ensures NoneAbandoned(Dispatch(s, i, answers).state) && Orphans(Dispatch(s, i, answers).state) == {}
    decreases |s.pfds| - i
  {
    if i < |s.pfds| {
      EntryDiesExactly(s, i, answers[i]);
      EntryKeeps(s, i, answers[i]);
      EntryKeepsOrphans(s, i, answers[i]);
      EntryCalm(s, i, answers[i]);
      DispatchCalm(Entry(s, i, answers[i]).state, i + 1, answers);
    }
  }

  lemma NothingAbandoned(s: State)
    requires NoneAbandoned(s)
    ensures AbandonedPipes(s) == {}
  {
  }

  /** A calm round does not stop the loop and leaves no orphan. */
  lemma CalmRoundIsSafe(s: State, answers: seq<Answer>)
    requires Inv(s) && Orphans(s) == {} && |answers| == |s.pfds| && LegalRound(s, answers) && CalmRound(s, answers)
    ensures Round(s, answers).Alive? && Inv(Round(s, answers).state) && Orphans(Round(s, answers).state) == {}
  {
    var s0 := s.(pending := None);
    PendingHasNoOrphans(s);
    DispatchCalm(s0, 0, answers);
    RoundKeeps(s, answers);
    RoundOrphans(s, answers);
    NothingAbandoned(Dispatch(s0, 0, answers).state);
  }
}
