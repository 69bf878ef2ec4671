/** Theorems about whole runs of the poll loop. */
module PollerRuns {
  import opened CppStrings
  import opened PollerState
  import opened PollerInvariant
  import opened PollerRounds
  import opened PollerOrphans

  /** The kernel is legal in every round. */
  predicate LegalRun(s: State, rounds: seq<seq<Answer>>)
    requires Fits(s, rounds)
    decreases |rounds|
  {
    rounds != [] ==>
      && LegalRound(s, rounds[0])
      && (Round(s, rounds[0]).Alive? ==> LegalRun(Round(s, rounds[0]).state, rounds[1..]))
  }

  /** No client leaves while its CGI is running, and no client is served in vain. */
  predicate CalmRun(s: State, rounds: seq<seq<Answer>>)
    requires Fits(s, rounds)
    decreases |rounds|
  {
    rounds != [] ==>
      && CalmRound(s, rounds[0])
      && (Round(s, rounds[0]).Alive? ==> CalmRun(Round(s, rounds[0]).state, rounds[1..]))
  }

  lemma InitialIsInv(listener: int)
    ensures Inv(Initial(listener)) && Orphans(Initial(listener)) == {}
  {
  }

  lemma {:induction false} RunKeeps(s: State, rounds: seq<seq<Answer>>)
    requires Inv(s) && Fits(s, rounds) && LegalRun(s, rounds)
    ensures Run(s, rounds).Alive? ==> Inv(Run(s, rounds).state)
    ensures LogOk(Run(s, rounds).state.log, Run(s, rounds).state.nextId)
    decreases |rounds|
  {
    if rounds != [] {
      RoundKeeps(s, rounds[0]);
      if Round(s, rounds[0]).Alive? {
        RunKeeps(Round(s, rounds[0]).state, rounds[1..]);
      }
    }
  }

  lemma {:induction false} CalmRunKeeps(s: State, rounds: seq<seq<Answer>>)
    requires Inv(s) && Orphans(s) == {} && Fits(s, rounds) && LegalRun(s, rounds) && CalmRun(s, rounds)
    ensures Run(s, rounds).Alive? && Inv(Run(s, rounds).state) && Orphans(Run(s, rounds).state) == {}
    decreases |rounds|
  {
    if rounds != [] {
      CalmRoundIsSafe(s, rounds[0]);
      CalmRunKeeps(Round(s, rounds[0]).state, rounds[1..]);
    }
  }

  // What the invariant says at a loop head.

  function CgiPipes(clients: map<int, Conn>): set<int> {
    set k | k in clients && clients[k].cgi.Some? :: clients[k].cgi.value.readFd
  }

  lemma PositionIsEntry(pfds: seq<PollFd>, fd: int)
    requires Pos(pfds, fd) != NPOS
    ensures fd in FdSet(pfds)
  {
    assert pfds[Pos(pfds, fd)] in pfds;
  }

  lemma ClientEntries(s: State, k: int)
    requires Inv(s) && k in s.clients
    ensures Pos(s.pfds, k) > 0 && Unanswered(s.log, s.clients[k].id)
    ensures s.clients[k].cgi.Some?
        ==> s.clients[k].cgiAdded && Pos(s.pfds, k) < Pos(s.pfds, s.clients[k].cgi.value.readFd)
  {
    assert ClientOk(s.(pending := None), 0, k);
  }

  lemma VectorMembers(s: State, fd: int)
    requires Inv(s)
    ensures fd in FdSet(s.pfds) <==>
        fd == s.listener || fd in s.clients || fd in CgiPipes(s.clients) || fd in Orphans(s)
  {
    if fd == s.listener {
      assert s.pfds[0] in s.pfds;
    } else if fd in s.clients {
      ClientEntries(s, fd);
      PositionIsEntry(s.pfds, fd);
    } else if fd in CgiPipes(s.clients) {
      var k :| k in s.clients && OwnsPipe(s.clients[k], fd);
      ClientEntries(s, k);
      PositionIsEntry(s.pfds, fd);
    }
  }

  /** The vector holds the listener, the clients, the pipes of their CGIs and the orphans,
      each once. */
  lemma VectorIsExact(s: State)
    requires Inv(s)
    ensures Distinct(s.pfds) && s.pfds != [] && s.pfds[0] == PollFd(s.listener, false)
    ensures FdSet(s.pfds) == {s.listener} + s.clients.Keys + CgiPipes(s.clients) + Orphans(s)
    ensures forall k :: k in s.clients && s.clients[k].cgi.Some? ==>
              s.clients[k].cgiAdded && 0 < Pos(s.pfds, k) < Pos(s.pfds, s.clients[k].cgi.value.readFd)
    ensures forall k :: k in s.clients ==> Unanswered(s.log, s.clients[k].id)
  {
    forall k | k in s.clients
      ensures Pos(s.pfds, k) > 0 && Unanswered(s.log, s.clients[k].id)
      ensures s.clients[k].cgi.Some?
          ==> s.clients[k].cgiAdded && Pos(s.pfds, k) < Pos(s.pfds, s.clients[k].cgi.value.readFd)
    {
      ClientEntries(s, k);
    }
    forall fd
      ensures fd in FdSet(s.pfds) <==> fd in {s.listener} + s.clients.Keys + CgiPipes(s.clients) + Orphans(s)
    {
      VectorMembers(s, fd);
    }
  }

  /** From the start, however the kernel answers, the loop stops for one of the causes or finds
      itself with a vector that is exact. */
  lemma EveryLoopHead(listener: int, rounds: seq<seq<Answer>>)
    requires Fits(Initial(listener), rounds) && LegalRun(Initial(listener), rounds)
    requires Run(Initial(listener), rounds).Alive?
    ensures var s := Run(Initial(listener), rounds).state;
            && s.dropped == [] && Distinct(s.pfds)
            && FdSet(s.pfds) == {s.listener} + s.clients.Keys + CgiPipes(s.clients) + Orphans(s)
            && forall k :: k in s.clients ==>
                 Unanswered(s.log, s.clients[k].id) && (s.clients[k].cgi.Some? ==> s.clients[k].cgiAdded)
  {
    InitialIsInv(listener);
    RunKeeps(Initial(listener), rounds);
    VectorIsExact(Run(Initial(listener), rounds).state);
  }

  /** While no client leaves its CGI running and none is served in vain, the loop goes on and
      the vector is exactly the listener, the clients and their pipes. */
  lemma CalmLoopHead(listener: int, rounds: seq<seq<Answer>>)
    requires Fits(Initial(listener), rounds) && LegalRun(Initial(listener), rounds)
        && CalmRun(Initial(listener), rounds)
    ensures Run(Initial(listener), rounds).Alive?
    ensures var s := Run(Initial(listener), rounds).state;
            FdSet(s.pfds) == {s.listener} + s.clients.Keys + CgiPipes(s.clients)
  {
    InitialIsInv(listener);
    CalmRunKeeps(Initial(listener), rounds);
    VectorIsExact(Run(Initial(listener), rounds).state);
  }

  // What can be observed of a run, whether it goes on or not.

  /** Each connection is answered at most once and starts at most one CGI, on a pipe of its
      own. */
  lemma AnswersAreUnique(listener: int, rounds: seq<seq<Answer>>, i: nat, j: nat)
    requires Fits(Initial(listener), rounds) && LegalRun(Initial(listener), rounds)
    requires i < j < |Run(Initial(listener), rounds).state.log|
    ensures var log := Run(Initial(listener), rounds).state.log;
            && (IsAnswer(log[i]) && IsAnswer(log[j]) ==> log[i].id != log[j].id)
            && (log[i].Spawned? && log[j].Spawned? ==> log[i].id != log[j].id && log[i].pipe != log[j].pipe)
  {
    InitialIsInv(listener);
    RunKeeps(Initial(listener), rounds);
  }

  lemma {:induction false} BytesReadUntil(log: seq<Event>, j: nat, pipe: int)
    requires j <= |log|
    requires forall i :: j <= i < |log| && log[i].PipeRead? ==> log[i].pipe != pipe
    ensures BytesRead(log, pipe) == BytesRead(log[..j], pipe)
  {
    if j < |log| {
      BytesReadUntil(log[..|log| - 1], j, pipe);
      assert log[..|log| - 1][..j] == log[..j];
    } else {
      assert log[..j] == log;
    }
  }

  /** What a CGI client is sent is everything that the whole run ever reads from the pipe
      that was opened for this client, in order. It is sent right behind the read that ended
      it, the first one of that pipe that was short or failed. */
  lemma CgiIsolation(listener: int, rounds: seq<seq<Answer>>, j: nat)
    requires Fits(Initial(listener), rounds) && LegalRun(Initial(listener), rounds)
    requires j < |Run(Initial(listener), rounds).state.log| && Run(Initial(listener), rounds).state.log[j].CgiSent?
    ensures var log := Run(Initial(listener), rounds).state.log;
            && SpawnedFor(log[..j], log[j].id, log[j].pipe)
            && log[j].bytes == BytesRead(log, log[j].pipe)
            && j > 0 && IsEnd(log[j - 1], log[j].pipe) && Unended(log[..j - 1], log[j].pipe)
  {
    InitialIsInv(listener);
    RunKeeps(Initial(listener), rounds);
    var log := Run(Initial(listener), rounds).state.log;
    assert Delivered(log[..j], log[j].id, log[j].pipe, log[j].bytes);
    assert log[..j][..j - 1] == log[..j - 1];
    BytesReadUntil(log, j, log[j].pipe);
  }

  // Accepted connections.

  lemma EntryKeepsPending(s: State, i: nat, a: Answer)
    requires i < |s.pfds| && s.pfds[i].fd != s.listener && Entry(s, i, a).Alive?
    ensures Entry(s, i, a).state.pending == s.pending
  {
    var fd := s.pfds[i].fd;
    if !a.hangup && a.readable && Owner(s, fd).Some? {
      assert ReadingPipe(s, Owner(s, fd).value, a.received).pending == s.pending;
    } else if !a.hangup && !a.readable && a.writable {
      assert Serving(s, fd, a).pending == s.pending;
    }
  }

  lemma {:induction false} DispatchKeepsPending(s: State, i: nat, answers: seq<Answer>)
    requires 0 < i <= |s.pfds| && |answers| == |s.pfds| && Distinct(s.pfds) && s.pfds[0].fd == s.listener
    ensures Dispatch(s, i, answers).Alive? ==> Dispatch(s, i, answers).state.pending == s.pending
    decreases |s.pfds| - i
  {
    if i < |s.pfds| && Entry(s, i, answers[i]).Alive? {
      EntryKeepsPending(s, i, answers[i]);
      DispatchKeepsPending(Entry(s, i, answers[i]).state, i + 1, answers);
    }
  }

  /** The one-slot pending accept loses nothing: the connection accepted in a round is a
      client with an entry at the next loop head, and every other client was one before. */
  lemma AcceptIsKept(s: State, answers: seq<Answer>)
    requires Inv(s) && |answers| == |s.pfds| && LegalRound(s, answers) && Round(s, answers).Alive?
    ensures var t := Round(s, answers).state;
            && (answers[0].readable ==>
                  var fd := answers[0].descriptor;
                  fd in t.clients && t.clients[fd] == NewConn(s.nextId) && fd in FdSet(t.pfds))
            && (forall k :: k in t.clients ==> k in s.clients || (answers[0].readable && k == answers[0].descriptor))
  {
    var s0 := s.(pending := None);
    if AnyReady(answers) {
      var s1 := Entry(s0, 0, answers[0]).state;
      assert Dispatch(s0, 0, answers) == Dispatch(s1, 1, answers);
      DispatchKeeps(s0, 0, answers);
      DispatchKeepsPending(s1, 1, answers);
      DispatchKeepsKeys(s0, 0, answers);
      RoundEnds(Dispatch(s0, 0, answers).state, |s0.pfds|);
      RoundKeeps(s, answers);
      VectorIsExact(Round(s, answers).state);
    } else {
      assert !Ready(answers[0]);
    }
  }

  lemma {:induction false} DispatchKeepsKeys(s: State, i: nat, answers: seq<Answer>)
    requires i <= |s.pfds| && |answers| == |s.pfds|
    ensures Dispatch(s, i, answers).Alive? ==> Dispatch(s, i, answers).state.clients.Keys == s.clients.Keys
    decreases |s.pfds| - i
  {
    if i < |s.pfds| && Entry(s, i, answers[i]).Alive? {
      EntryKeepsPipes(s, i, answers[i]);
      DispatchKeepsKeys(Entry(s, i, answers[i]).state, i + 1, answers);
    }
  }
}
