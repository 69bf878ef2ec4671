/** What becomes of a single client from round to round. */
module PollerClients {
  import opened CppStrings
  import opened PollerState
  import opened PollerInvariant
  import opened PollerRounds
  import opened PollerOrphans
  import opened PollerRuns

  // One entry.

  lemma {:induction false} ReadingCgiTouches(s: State, k: int, a: Answer, l: int)
    requires k in s.clients && s.clients[k].cgi.Some? && l in s.clients
    requires l != k && l != s.clients[k].cgi.value.readFd && l !in s.dropped
    ensures l !in ReadingCgi(s, k, a).dropped
  {
    if l in ReadingCgi(s, k, a).dropped {
      ReadingCgiDrops(s, k, a, l);
    }
  }

  lemma {:induction false} ServingTouches(s: State, fd: int, a: Answer, l: int)
    requires fd in s.clients && l != fd && l !in s.dropped
    ensures l !in Serving(s, fd, a).dropped
  {
    if l in Serving(s, fd, a).dropped {
      ServingDrops(s, fd, a, l);
    }
  }

  /** An entry drops and changes no clients but the one it belongs to and the one that owns it
      as its CGI's pipe. */
  lemma {:induction false} EntryTouches(s: State, i: nat, a: Answer, l: int)
    requires i < |s.pfds| && Entry(s, i, a).Alive? && l in s.clients && l !in s.dropped
    requires l != s.pfds[i].fd && Owner(s, s.pfds[i].fd) != Some(l)
    ensures var t := Entry(s, i, a).state;
            l in t.clients && t.clients[l] == s.clients[l] && l !in t.dropped
  {
    var fd := s.pfds[i].fd;
    EntryFrame(s, i, a, l);
    if a.hangup {
    } else if a.readable {
      if fd != s.listener && Owner(s, fd).Some? {
        ReadingCgiTouches(s, Owner(s, fd).value, a, l);
      }
    } else if a.writable {
      ServingTouches(s, fd, a, l);
    }
  }

  // The end of a round.

  /** A client behind the end of a round is one that was not dropped, or a new one. */
  lemma {:induction false} ClientsAfter(s: State, n: nat, k: int)
    requires Mid(s, n) && k in Added(Deleted(s)).clients
    ensures var c := Added(Deleted(s)).clients[k];
            || (k in s.clients && k !in s.dropped && Joined(s.clients[k], c))
            || (s.pending.Some? && k == s.pending.value.0 && c == NewConn(c.id))
  {
    DeletionFilters(s);
    RoundEnds(s, n);
    PendingIsNoEntry(s, n);
    var u := WithConnection(Deleted(s));
    var keys := SortedKeys(u.clients.Keys);
    ClientsKept(u, keys, k);
  }

  lemma {:induction false} ClientsKept(u: State, keys: seq<int>, k: int)
    requires (forall i :: 0 <= i < |keys| ==> keys[i] in u.clients) && k in WithPipes(u, keys).clients
    ensures k in u.clients && Joined(u.clients[k], WithPipes(u, keys).clients[k])
  {
    PipesKeepKeys(u, keys);
    PipesAreJoined(u, keys, k);
  }

  // A client that has shut down its sending side.

  /** Reading this client's socket yields nothing, as often as it is tried. */
  predicate SaysNoMore(s: State, k: int, answers: seq<Answer>)
    requires |answers| == |s.pfds|
  {
    forall i :: 0 <= i < |s.pfds| && s.pfds[i].fd == k ==>
      answers[i].readable && !answers[i].hangup && answers[i].received == Data("")
  }

  /** It has sent something that has not been parsed, and owns no CGI. */
  predicate HasUnread(s: State, k: int) {
    k in s.clients && s.clients[k].raw != "" && s.clients[k].cgi.None?
  }

  lemma {:induction false} EmptyReadChangesNothing(s: State, i: nat, a: Answer)
    requires Mid(s, i) && i < |s.pfds| && HasUnread(s, s.pfds[i].fd)
    requires a.readable && !a.hangup && a.received == Data("")
    ensures Entry(s, i, a) == Alive(s)
  {
    var fd := s.pfds[i].fd;
    var c := s.clients[fd];
    PipesAreNoClients(s, i);
    assert Owner(s, fd).None?;
    assert ClientOk(s, i, fd);
    PosOfEntry(s.pfds, 0);
    assert fd != s.listener;
    assert c.(raw := c.raw + "") == c && s.clients[fd := c] == s.clients;
  }

  lemma {:induction false} DispatchStarves(s: State, i: nat, answers: seq<Answer>, k: int)
    requires i <= |s.pfds| == |answers| && Mid(s, i) && LegalFrom(s, i, answers)
    requires HasUnread(s, k) && k !in s.dropped && SaysNoMore(s, k, answers)
    ensures Dispatch(s, i, answers).Alive? ==>
              var t := Dispatch(s, i, answers).state;
              k in t.clients && t.clients[k] == s.clients[k] && k !in t.dropped
    decreases |s.pfds| - i
  {
    if i < |s.pfds| && Entry(s, i, answers[i]).Alive? {
      EntryKeeps(s, i, answers[i]);
      if s.pfds[i].fd == k {
        EmptyReadChangesNothing(s, i, answers[i]);
      } else {
        EntryTouches(s, i, answers[i], k);
      }
      DispatchStarves(Entry(s, i, answers[i]).state, i + 1, answers, k);
    }
  }

  lemma {:induction false} RoundStarves(s: State, answers: seq<Answer>, k: int)
    requires Inv(s) && |answers| == |s.pfds| && LegalRound(s, answers) && Round(s, answers).Alive?
    requires HasUnread(s, k) && SaysNoMore(s, k, answers)
    ensures var t := Round(s, answers).state; k in t.clients && t.clients[k] == s.clients[k]
  {
    var s0 := s.(pending := None);
    if AnyReady(answers) {
      DispatchStarves(s0, 0, answers, k);
      DispatchKeeps(s0, 0, answers);
      var t := Dispatch(s0, 0, answers).state;
      RoundEnds(t, |s0.pfds|);
      PendingIsNoEntry(t, |s0.pfds|);
      ClientsAfter(t, |s0.pfds|, k);
    }
  }

  /** In every round the client's socket is readable and yields nothing. */
  predicate SaysNoMoreInRun(s: State, k: int, rounds: seq<seq<Answer>>)
    requires Fits(s, rounds)
    decreases |rounds|
  {
    rounds != [] ==>
      && SaysNoMore(s, k, rounds[0])
      && (Round(s, rounds[0]).Alive? ==> SaysNoMoreInRun(Round(s, rounds[0]).state, k, rounds[1..]))
  }

  /** A client that shuts down its sending side before its request has been looked at stays
      readable, and because reading comes before writing it is neither answered nor dropped,
      however long the loop runs and however writable it is. */
  lemma {:induction false} HalfClosedClientStarves(s: State, k: int, rounds: seq<seq<Answer>>)
    requires Inv(s) && Fits(s, rounds) && LegalRun(s, rounds) && HasUnread(s, k) && SaysNoMoreInRun(s, k, rounds)
    requires Run(s, rounds).Alive?
    ensures var t := Run(s, rounds).state;
            k in t.clients && t.clients[k] == s.clients[k] && Unanswered(t.log, s.clients[k].id)
    decreases |rounds|
  {
    if rounds == [] {
      VectorIsExact(s);
    } else {
      RoundKeeps(s, rounds[0]);
      RoundStarves(s, rounds[0], k);
      HalfClosedClientStarves(Round(s, rounds[0]).state, k, rounds[1..]);
    }
  }
}
