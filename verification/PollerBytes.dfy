/** The bytes a client has sent and the descriptors that are open, over whole runs. */
module PollerBytes {
  import opened CppStrings
  import opened PollerState
  import opened PollerInvariant
  import opened PollerRounds
  import opened PollerOrphans
  import opened PollerRuns
  import opened PollerClients
  import opened PollerAnswers

  // A client's unread bytes.

  /** A client's bytes behind its entry: what is read is added at the end, and being served
      takes them away unless it has been parsed before. */
  function RawAfter(c: Conn, a: Answer): string {
    if a.hangup then c.raw
    else if a.readable then c.raw + BytesOf(a.received)
    else if a.writable && !c.parsed then ""
    else c.raw
  }

  lemma {:induction false} ServedRaw(s: State, fd: int, a: Answer)
    requires fd in s.clients && Fatal(s.clients[fd], a).None?
    ensures fd in Serving(s, fd, a).clients
    ensures Serving(s, fd, a).clients[fd].raw == if s.clients[fd].parsed then s.clients[fd].raw else ""
  {
    ServedConnection(s, fd, a);
    ProcessedConnection(s.clients[fd], a);
  }

  lemma {:induction false} OwnEntryRaw(s: State, i: nat, a: Answer)
    requires Mid(s, i) && i < |s.pfds| && Legal(s, i, a) && Entry(s, i, a).Alive? && s.pfds[i].fd in s.clients
    ensures var t, fd := Entry(s, i, a).state, s.pfds[i].fd;
            fd in t.clients && t.clients[fd].raw == RawAfter(s.clients[fd], a)
  {
    var fd := s.pfds[i].fd;
    ClientHasNoOwner(s, i);
    EntryDiesExactly(s, i, a);
    if a.hangup {
    } else if a.readable {
      ReadConnection(s, fd, a.received);
    } else if a.writable {
      ServedRaw(s, fd, a);
    }
  }

  lemma {:induction false} ClientHasNoOwner(s: State, i: nat)
    requires Mid(s, i) && i < |s.pfds| && s.pfds[i].fd in s.clients
    ensures Owner(s, s.pfds[i].fd).None? && s.pfds[i].fd != s.listener
  {
    PipesAreNoClients(s, i);
    assert ClientOk(s, i, s.pfds[i].fd);
    PosOfEntry(s.pfds, 0);
  }

  lemma {:induction false} ReadingKeepsRaw(s: State, l: int, a: Answer, k: int)
    requires l in s.clients && s.clients[l].cgi.Some? && k in s.clients
    ensures k in ReadingCgi(s, l, a).clients && ReadingCgi(s, l, a).clients[k].raw == s.clients[k].raw
  {
    ReadFrame(s, l, a.received);
  }

  /** No other entry touches them. */
  lemma {:induction false} OtherEntryRaw(s: State, i: nat, a: Answer, k: int)
    requires i < |s.pfds| && Entry(s, i, a).Alive? && k in s.clients && k != s.pfds[i].fd
    ensures k in Entry(s, i, a).state.clients && Entry(s, i, a).state.clients[k].raw == s.clients[k].raw
  {
    var fd := s.pfds[i].fd;
    if a.hangup {
    } else if a.readable {
      if fd != s.listener && Owner(s, fd).Some? {
        ReadingKeepsRaw(s, Owner(s, fd).value, a, k);
      }
    } else if a.writable {
      ServingFrame(s, fd, a, k);
    }
  }

  lemma {:induction false} EntryRaw(s: State, i: nat, a: Answer, k: int)
    requires Mid(s, i) && i < |s.pfds| && Legal(s, i, a) && Entry(s, i, a).Alive? && k in s.clients
    ensures var t, p := Entry(s, i, a).state, Pos(s.pfds, k);
            && 0 < p < |s.pfds| && k in t.clients
            && t.clients[k].raw == (if i == p then RawAfter(s.clients[k], a) else s.clients[k].raw)
            && (i < p ==> t.clients[k].parsed == s.clients[k].parsed)
  {
    assert ClientOk(s, i, k);
    var p := Pos(s.pfds, k);
    PosOfEntry(s.pfds, i);
    if i == p {
      OwnEntryRaw(s, i, a);
    } else {
      OtherEntryRaw(s, i, a, k);
      if i < p {
        LaterClientKept(s, i, a, p);
      }
    }
  }

  /** What the entries from `i` on will leave of them. */
  function RawFrom(s: State, i: nat, answers: seq<Answer>, k: int): string
    requires |answers| == |s.pfds| && k in s.clients && Pos(s.pfds, k) != NPOS
  {
    if i <= Pos(s.pfds, k) then RawAfter(s.clients[k], answers[Pos(s.pfds, k)]) else s.clients[k].raw
  }

  lemma {:induction false} RawStep(s: State, i: nat, answers: seq<Answer>, k: int)
    requires i < |s.pfds| == |answers| && Mid(s, i) && Legal(s, i, answers[i]) && Entry(s, i, answers[i]).Alive?
    requires k in s.clients
    ensures var t := Entry(s, i, answers[i]).state;
            && Pos(s.pfds, k) > 0 && k in t.clients && RawFrom(t, i + 1, answers, k) == RawFrom(s, i, answers, k)
  {
    EntryRaw(s, i, answers[i], k);
  }

  lemma {:induction false} DispatchRaw(s: State, i: nat, answers: seq<Answer>, k: int)
    requires i <= |s.pfds| == |answers| && Mid(s, i) && LegalFrom(s, i, answers) && k in s.clients
    requires Dispatch(s, i, answers).Alive?
    ensures var t := Dispatch(s, i, answers).state;
            Pos(s.pfds, k) > 0 && k in t.clients && t.clients[k].raw == RawFrom(s, i, answers, k)
    decreases |s.pfds| - i
  {
    if i == |s.pfds| {
      assert ClientOk(s, i, k);
    } else {
      EntryKeeps(s, i, answers[i]);
      RawStep(s, i, answers, k);
      DispatchRaw(Entry(s, i, answers[i]).state, i + 1, answers, k);
    }
  }

  /** Over a round, for a client that it does not drop. */
  lemma {:induction false} RoundRaw(s: State, answers: seq<Answer>, k: int)
    requires Inv(s) && |answers| == |s.pfds| && LegalRound(s, answers) && Round(s, answers).Alive?
    requires k in s.clients && k in Round(s, answers).state.clients
    ensures 0 < Pos(s.pfds, k) < |answers|
    ensures Round(s, answers).state.clients[k].raw == RawAfter(s.clients[k], answers[Pos(s.pfds, k)])
  {
    var s0 := s.(pending := None);
    ClientEntries(s, k);
    if AnyReady(answers) {
      DispatchRaw(s0, 0, answers, k);
      DispatchKeeps(s0, 0, answers);
      var t := Dispatch(s0, 0, answers).state;
      RoundEnds(t, |s0.pfds|);
      PendingIsNoEntry(t, |s0.pfds|);
      ClientsAfter(t, |s0.pfds|, k);
    } else {
      assert !Ready(answers[Pos(s.pfds, k)]);
    }
  }

  /** In every round the client stays, and what it is ready for is not being served. */
  predicate WaitsThrough(s: State, k: int, rounds: seq<seq<Answer>>)
    requires Fits(s, rounds)
    decreases |rounds|
  {
    rounds != [] ==>
      && Round(s, rounds[0]).Alive? && k in Round(s, rounds[0]).state.clients
      && (0 <= Pos(s.pfds, k) < |rounds[0]| ==>
          var a := rounds[0][Pos(s.pfds, k)]; a.hangup || a.readable || !a.writable)
      && WaitsThrough(Round(s, rounds[0]).state, k, rounds[1..])
  }

  /** What the kernel hands out for the client's socket, read after read. */
  function ReadFrom(s: State, k: int, rounds: seq<seq<Answer>>): string
    requires Fits(s, rounds)
    decreases |rounds|
  {
    if rounds == [] then ""
    else
      var p := Pos(s.pfds, k);
      (if 0 <= p < |rounds[0]| && rounds[0][p].readable && !rounds[0][p].hangup then BytesOf(rounds[0][p].received)
       else "")
      + (if Round(s, rounds[0]).Alive? then ReadFrom(Round(s, rounds[0]).state, k, rounds[1..]) else "")
  }

  /** Until it is served, a client's unread bytes are what its socket has yielded, read after
      read and nothing else, however its data was cut up and whatever the others did. */
  lemma {:induction false} BytesAreKept(s: State, k: int, rounds: seq<seq<Answer>>)
    requires Inv(s) && Fits(s, rounds) && LegalRun(s, rounds) && k in s.clients && WaitsThrough(s, k, rounds)
    ensures Run(s, rounds).Alive? && k in Run(s, rounds).state.clients
    ensures Run(s, rounds).state.clients[k].raw == s.clients[k].raw + ReadFrom(s, k, rounds)
    decreases |rounds|
  {
    if rounds != [] {
      RoundKeeps(s, rounds[0]);
      RoundRaw(s, rounds[0], k);
      var t := Round(s, rounds[0]).state;
      BytesAreKept(t, k, rounds[1..]);
      var read := if rounds[0][Pos(s.pfds, k)].readable && !rounds[0][Pos(s.pfds, k)].hangup
                  then BytesOf(rounds[0][Pos(s.pfds, k)].received) else "";
      assert t.clients[k].raw == s.clients[k].raw + read;
      Associate(s.clients[k].raw, read, ReadFrom(t, k, rounds[1..]));
    } else {
      assert s.clients[k].raw + "" == s.clients[k].raw;
    }
  }

  // Open descriptors.

  /** The pipes that have ever been opened. */
  function Pipes(log: seq<Event>): set<int> {
    set e | e in log && e.Spawned? :: e.pipe
  }

  /** The listener, the clients, the connection that waits to be added, and every pipe. */
  predicate OpenExactly(s: State) {
    s.open == {s.listener} + s.clients.Keys + (if s.pending.Some? then {s.pending.value.0} else {}) + Pipes(s.log)
  }

  lemma {:induction false} PipesGrow(log: seq<Event>, more: seq<Event>)
    ensures Pipes(log + more) == Pipes(log) + Pipes(more)
  {
  }

  lemma {:induction false} ServingOpens(s: State, fd: int, a: Answer)
    requires fd in s.clients && Fatal(s.clients[fd], a).None?
    ensures Serving(s, fd, a).open == s.open + Pipes(ServiceEvents(s.clients[fd], a))
    ensures Serving(s, fd, a).pending == s.pending
  {
    var c := Processed(s.clients[fd], a);
    assert c.isCgi == BecomesCgi(s.clients[fd], a) && c.cgi == s.clients[fd].cgi;
  }

  lemma {:induction false} ReadingOpens(s: State, k: int, a: Answer)
    requires k in s.clients && s.clients[k].cgi.Some?
    ensures ReadingCgi(s, k, a).open == s.open && ReadingCgi(s, k, a).pending == s.pending
  {
  }

  predicate IsAccept(s: State, i: nat, a: Answer)
    requires i < |s.pfds|
  {
    !a.hangup && a.readable && s.pfds[i].fd == s.listener
  }

  lemma {:induction false} PipeEventsOpenNone(log: seq<Event>, id: nat, pipe: int, a: Answer)
    ensures Pipes(PipeEvents(log, id, pipe, a)) == {}
  {
    assert forall e :: e in PipeEvents(log, id, pipe, a) ==> !e.Spawned?;
  }

  lemma {:induction false} OnlyServingOpensPipes(s: State, i: nat, a: Answer)
    requires i < |s.pfds| && CauseAt(s, i, a).None?
    ensures IsServed(s, i, a) ==> Pipes(EventsAt(s, i, a)) == Pipes(ServiceEvents(s.clients[s.pfds[i].fd], a))
    ensures !IsServed(s, i, a) ==> Pipes(EventsAt(s, i, a)) == {}
  {
    if IsPipeRead(s, i, a) {
      PipeEventsOpenNone(s.log, s.clients[Owner(s, s.pfds[i].fd).value].id, s.pfds[i].fd, a);
    }
  }

  lemma {:induction false} EntryOpened(s: State, i: nat, a: Answer)
    requires i < |s.pfds| && Entry(s, i, a).Alive? && CauseAt(s, i, a).None?
    ensures var t := Entry(s, i, a).state;
            var served := if IsServed(s, i, a) then Pipes(ServiceEvents(s.clients[s.pfds[i].fd], a)) else {};
            && t.open == s.open + (if IsAccept(s, i, a) then {a.descriptor} else {}) + served
            && (if IsAccept(s, i, a) then t.pending.Some? && t.pending.value.0 == a.descriptor
                else t.pending == s.pending)
  {
    var fd := s.pfds[i].fd;
    if a.hangup {
    } else if a.readable {
      if fd != s.listener && Owner(s, fd).Some? {
        ReadingOpens(s, Owner(s, fd).value, a);
      }
    } else if a.writable {
      ServingOpens(s, fd, a);
    }
  }

  lemma {:induction false} EntryOpens(s: State, i: nat, a: Answer)
    requires Mid(s, i) && i < |s.pfds| && Legal(s, i, a) && Entry(s, i, a).Alive? && OpenExactly(s)
    requires s.pending.Some? ==> i > 0
    ensures OpenExactly(Entry(s, i, a).state)
  {
    EntryExactly(s, i, a);
    EntryOpened(s, i, a);
    OnlyServingOpensPipes(s, i, a);
    EntryKeepsPipes(s, i, a);
    PipesGrow(s.log, EventsAt(s, i, a));
    PosOfEntry(s.pfds, i);
    PosOfEntry(s.pfds, 0);
  }

  lemma {:induction false} DispatchOpens(s: State, i: nat, answers: seq<Answer>)
    requires i <= |s.pfds| == |answers| && Mid(s, i) && LegalFrom(s, i, answers) && OpenExactly(s)
    requires (s.pending.Some? ==> i > 0) && Dispatch(s, i, answers).Alive?
    ensures OpenExactly(Dispatch(s, i, answers).state)
    decreases |s.pfds| - i
  {
    if i < |s.pfds| {
      EntryKeeps(s, i, answers[i]);
      EntryOpens(s, i, answers[i]);
      DispatchOpens(Entry(s, i, answers[i]).state, i + 1, answers);
    }
  }

  lemma {:induction false} PipesOfClients(s: State, i: nat, fd: int)
    requires Descriptors(s) && fd in Pipes(s.log)
    ensures fd !in s.clients
  {
    var j: nat :| j < |s.log| && s.log[j].Spawned? && s.log[j].pipe == fd;
    assert SpawnedPipe(s.log, fd);
  }

  lemma {:induction false} AddedOpens(d: State)
    ensures Added(d).open == d.open && Added(d).listener == d.listener
  {
    PipesKeepOpen(WithConnection(d), SortedKeys(WithConnection(d).clients.Keys));
  }

  lemma {:induction false} PipesStayOpen(s: State, i: nat)
    requires Descriptors(s)
    ensures Pipes(s.log) !! s.clients.Keys
  {
    forall fd | fd in Pipes(s.log)
      ensures fd !in s.clients
    {
      PipesOfClients(s, i, fd);
    }
  }

  lemma {:induction false} EndOpens(s: State, n: nat)
    requires Mid(s, n) && OpenExactly(s)
    ensures var t := Added(Deleted(s));
            t.open == {t.listener} + t.clients.Keys + Pipes(t.log)
  {
    DeletionFilters(s);
    RoundEnds(s, n);
    PendingIsNoEntry(s, n);
    PipesStayOpen(s, n);
    AddedOpens(Deleted(s));
    ListenerIsNoClient(s, n);
    OpenAfterDeletion(s.open, s.listener, s.clients.Keys, Gone(s.dropped),
        if s.pending.Some? then {s.pending.value.0} else {}, Pipes(s.log));
  }

  lemma {:induction false} ListenerIsNoClient(s: State, n: nat)
    requires Mid(s, n)
    ensures s.listener !in s.clients
  {
    PosOfEntry(s.pfds, 0);
    forall k | k in s.clients
      ensures k != s.listener
    {
      assert ClientOk(s, n, k);
    }
  }

  lemma OpenAfterDeletion(open: set<int>, listener: int, clients: set<int>, gone: set<int>, pending: set<int>,
      pipes: set<int>)
    requires open == {listener} + clients + pending + pipes
    requires listener !in clients && pending !! clients && pipes !! clients
    ensures open - clients * gone == {listener} + ((clients - gone) + pending) + pipes
  {
  }

  lemma {:induction false} PipesKeepOpen(s: State, keys: seq<int>)
    requires forall i :: 0 <= i < |keys| ==> keys[i] in s.clients
    ensures WithPipes(s, keys).open == s.open && WithPipes(s, keys).listener == s.listener
    ensures WithPipes(s, keys).pending == s.pending
    decreases |keys|
  {
    if keys != [] {
      assert WithPipe(s, keys[0]).clients.Keys == s.clients.Keys;
      PipesKeepOpen(WithPipe(s, keys[0]), keys[1..]);
    }
  }

  lemma {:induction false} RoundOpens(s: State, answers: seq<Answer>)
    requires Inv(s) && |answers| == |s.pfds| && LegalRound(s, answers) && Round(s, answers).Alive?
    requires OpenExactly(s.(pending := None))
    ensures OpenExactly(Round(s, answers).state.(pending := None))
  {
    var s0 := s.(pending := None);
    if AnyReady(answers) {
      DispatchOpens(s0, 0, answers);
      DispatchKeeps(s0, 0, answers);
      EndOpens(Dispatch(s0, 0, answers).state, |s0.pfds|);
    }
  }

  lemma {:induction false} RunOpens(s: State, rounds: seq<seq<Answer>>)
    requires Inv(s) && Fits(s, rounds) && LegalRun(s, rounds) && Run(s, rounds).Alive?
    requires OpenExactly(s.(pending := None))
    ensures OpenExactly(Run(s, rounds).state.(pending := None))
    decreases |rounds|
  {
    if rounds != [] {
      RoundKeeps(s, rounds[0]);
      RoundOpens(s, rounds[0]);
      RunOpens(Round(s, rounds[0]).state, rounds[1..]);
    }
  }

  /** At every loop head of every run exactly these descriptors are open: the listener, the
      clients, and the pipe of every CGI that was ever started. A dropped client's socket is
      closed, and no pipe ever is. */
  lemma {:induction false} OpenDescriptorsExactly(listener: int, rounds: seq<seq<Answer>>)
    requires Fits(Initial(listener), rounds) && LegalRun(Initial(listener), rounds)
    requires Run(Initial(listener), rounds).Alive?
    ensures var s := Run(Initial(listener), rounds).state;
            s.open == {s.listener} + s.clients.Keys + Pipes(s.log)
  {
    InitialIsInv(listener);
    RunOpens(Initial(listener), rounds);
  }
}
