/** Whole rounds of the poll loop. */
module PollerRounds {
  import opened CppStrings
  import opened PollerState
  import opened PollerInvariant

  // Deferred deletion.

  /** The entries whose descriptor is not in `gone`, in order. */
  function Kept(pfds: seq<PollFd>, gone: set<int>): seq<PollFd> {
    if pfds == [] then [] else (if pfds[0].fd in gone then [] else [pfds[0]]) + Kept(pfds[1..], gone)
  }

  function Gone(dropped: seq<int>): set<int> {
    set d | d in dropped
  }

  lemma {:induction false} KeptMembers(pfds: seq<PollFd>, gone: set<int>)
    ensures forall e :: e in Kept(pfds, gone) <==> e in pfds && e.fd !in gone
  {
    if pfds != [] {
      KeptMembers(pfds[1..], gone);
      assert pfds == [pfds[0]] + pfds[1..];
    }
  }

  lemma DistinctTail(pfds: seq<PollFd>)
    requires pfds != [] && Distinct(pfds)
    ensures Distinct(pfds[1..]) && forall e :: e in pfds[1..] ==> e.fd != pfds[0].fd
  {
  }

  lemma {:induction false} KeptDistinct(pfds: seq<PollFd>, gone: set<int>)
    requires Distinct(pfds)
    ensures Distinct(Kept(pfds, gone))
  {
    if pfds != [] {
      DistinctTail(pfds);
      KeptDistinct(pfds[1..], gone);
      KeptMembers(pfds[1..], gone);
      var rest := Kept(pfds[1..], gone);
      assert forall b :: 0 <= b < |rest| ==> rest[b] in rest;
    }
  }

  lemma {:induction false} KeptAll(pfds: seq<PollFd>, gone: set<int>)
    requires forall e :: e in pfds ==> e.fd !in gone
    ensures Kept(pfds, gone) == pfds
  {
    if pfds != [] {
      KeptAll(pfds[1..], gone);
    }
  }

  lemma TakeStep(pfds: seq<PollFd>, p: nat)
    requires p < |pfds|
    ensures pfds[..p + 1] == [pfds[0]] + pfds[1..][..p]
  {
  }

  lemma DropStep(pfds: seq<PollFd>, p: nat)
    requires p < |pfds|
    ensures pfds[p + 1..] == pfds[1..][p..]
  {
  }

  lemma ErasedTail(pfds: seq<PollFd>, fd: int)
    requires pfds != [] && pfds[0].fd != fd
    ensures WithoutEntry(pfds, fd) == [pfds[0]] + WithoutEntry(pfds[1..], fd)
  {
    var p := Pos(pfds[1..], fd);
    if p != NPOS {
      TakeStep(pfds, p);
      DropStep(pfds, p + 1);
      Associate([pfds[0]], pfds[1..][..p], pfds[1..][p + 1..]);
    }
  }

  lemma {:induction false} ErasedIsKept(pfds: seq<PollFd>, fd: int)
    requires Distinct(pfds)
    ensures WithoutEntry(pfds, fd) == Kept(pfds, {fd})
  {
    if pfds != [] {
      DistinctTail(pfds);
      if pfds[0].fd == fd {
        KeptAll(pfds[1..], {fd});
        assert pfds[..0] + pfds[1..] == pfds[1..];
      } else {
        ErasedIsKept(pfds[1..], fd);
        ErasedTail(pfds, fd);
      }
    }
  }

  lemma {:induction false} KeptTwice(pfds: seq<PollFd>, a: set<int>, b: set<int>)
    ensures Kept(Kept(pfds, a), b) == Kept(pfds, a + b)
  {
    if pfds != [] {
      KeptTwice(pfds[1..], a, b);
      var rest := Kept(pfds[1..], a);
      if pfds[0].fd !in a {
        assert ([pfds[0]] + rest)[1..] == rest;
      } else {
        assert [] + rest == rest;
      }
    }
  }

  /** What deferred deletion amounts to: filtering the vector and the map by the dropped
      descriptors, however often and in whatever order they were pushed, known or not. */
  function Filtered(s: State): State {
    var gone := Gone(s.dropped);
    s.(pfds := Kept(s.pfds, gone), clients := s.clients - gone, open := s.open - s.clients.Keys * gone, dropped := [])
  }

  lemma DropOneErases(s: State, fd: int)
    requires Distinct(s.pfds)
    ensures WithoutEntry(s.pfds, fd) == Kept(s.pfds, {fd}) && DropOne(s, fd).pfds == Kept(s.pfds, {fd})
    ensures Distinct(DropOne(s, fd).pfds)
  {
    ErasedIsKept(s.pfds, fd);
    KeptDistinct(s.pfds, {fd});
  }

  lemma NothingFiltered(s: State)
    requires s.dropped == []
    ensures Filtered(s) == s
  {
    KeptAll(s.pfds, {});
    assert Gone([]) == {};
    assert s.clients - {} == s.clients;
    assert s.open - s.clients.Keys * {} == s.open;
  }

  lemma {:induction false} DeletionFilters(s: State)
    requires Distinct(s.pfds)
    ensures Deleted(s) == Filtered(s)
    decreases |s.dropped|
  {
    if s.dropped == [] {
      NothingFiltered(s);
    } else {
      var fd, rest := s.dropped[|s.dropped| - 1], s.dropped[..|s.dropped| - 1];
      var t := DropOne(s, fd).(dropped := rest);
      DropOneErases(s, fd);
      DeletionFilters(t);
      FilterStep(s, fd, rest);
    }
  }

  lemma MapMinus(m: map<int, Conn>, a: set<int>, b: set<int>)
    ensures m - a - b == m - (a + b)
  {
  }

  lemma SetMinus(open: set<int>, keys: set<int>, a: set<int>, b: set<int>)
    ensures open - keys * a - (keys - a) * b == open - keys * (a + b)
  {
  }

  lemma DropOneFilters(s: State, fd: int)
    ensures DropOne(s, fd).clients == s.clients - {fd} && DropOne(s, fd).open == s.open - s.clients.Keys * {fd}
  {
    if fd !in s.clients {
      assert s.clients - {fd} == s.clients;
      assert s.clients.Keys * {fd} == {};
    } else {
      assert s.clients.Keys * {fd} == {fd};
    }
  }

  lemma FilterStep(s: State, fd: int, rest: seq<int>)
    requires s.dropped == rest + [fd] && WithoutEntry(s.pfds, fd) == Kept(s.pfds, {fd})
    ensures Filtered(DropOne(s, fd).(dropped := rest)) == Filtered(s)
  {
    var t := DropOne(s, fd).(dropped := rest);
    DropOneFilters(s, fd);
    assert Gone(s.dropped) == {fd} + Gone(rest);
    KeptTwice(s.pfds, {fd}, Gone(rest));
    MapMinus(s.clients, {fd}, Gone(rest));
    SetMinus(s.open, s.clients.Keys, {fd}, Gone(rest));
    assert t.clients.Keys == s.clients.Keys - {fd};
  }

  lemma KeptPos(pfds: seq<PollFd>, gone: set<int>, fd: int)
    requires fd !in gone
    ensures Pos(Kept(pfds, gone), fd) == NPOS <==> Pos(pfds, fd) == NPOS
  {
    KeptMembers(pfds, gone);
    PosFinds(pfds, fd);
    PosFinds(Kept(pfds, gone), fd);
    assert forall e :: e in pfds ==> exists a :: 0 <= a < |pfds| && pfds[a] == e;
    assert forall e :: e in Kept(pfds, gone) ==> exists a :: 0 <= a < |Kept(pfds, gone)| && Kept(pfds, gone)[a] == e;
  }

  lemma {:induction false} KeptOrder(pfds: seq<PollFd>, gone: set<int>, f: int, g: int)
    requires f !in gone && g !in gone && 0 <= Pos(pfds, f) < Pos(pfds, g)
    ensures 0 <= Pos(Kept(pfds, gone), f) < Pos(Kept(pfds, gone), g)
  {
    var rest := Kept(pfds[1..], gone);
    assert pfds[0].fd !in gone ==> ([pfds[0]] + rest)[1..] == rest;
    assert [] + rest == rest;
    if pfds[0].fd == f {
      KeptPos(pfds[1..], gone, g);
    } else {
      KeptOrder(pfds[1..], gone, f, g);
    }
  }

  lemma PosAppended(pfds: seq<PollFd>, e: PollFd, fd: int)
    ensures Pos(pfds + [e], fd) == if Pos(pfds, fd) != NPOS then Pos(pfds, fd) else if e.fd == fd then |pfds| else NPOS
  {
    if pfds == [] {
      assert pfds + [e] == [e];
      assert [e][1..] == [];
    } else {
      assert (pfds + [e])[1..] == pfds[1..] + [e];
      PosAppended(pfds[1..], e, fd);
    }
  }

  // Between deletion and addition.

  /** A client between two rounds; its CGI may still lack its entry. */
  ghost predicate Waiting(s: State, k: int)
    requires k in s.clients
  {
    var c := s.clients[k];
    && c.id < s.nextId
    && Pos(s.pfds, k) > 0 && s.pfds[Pos(s.pfds, k)].wantsWrite
    && Unanswered(s.log, c.id)
    && (c.cgi.None? ==> !c.cgiAdded && Unspawned(s.log, c.id))
    && (c.cgi.Some? ==>
          var g := c.cgi.value;
          && c.isCgi && !g.done && SpawnedFor(s.log, c.id, g.readFd) && g.response == BytesRead(s.log, g.readFd)
              && Unended(s.log, g.readFd)
          && (c.cgiAdded ==> Pos(s.pfds, k) < Pos(s.pfds, g.readFd))
          && (!c.cgiAdded ==> Pos(s.pfds, g.readFd) == NPOS))
  }

  ghost predicate Between(s: State) {
    && Table(s) && Descriptors(s.(pending := None)) && s.dropped == [] && DistinctIds(s) && LogOk(s.log, s.nextId)
    && forall k :: k in s.clients ==> Waiting(s, k)
  }

  lemma BetweenIsInv(s: State)
    requires Between(s) && forall k :: k in s.clients ==> s.clients[k].cgi.Some? ==> s.clients[k].cgiAdded
    ensures Inv(s)
  {
    var t := s.(pending := None);
    forall k | k in t.clients
      ensures ClientOk(t, 0, k)
    {
      assert Waiting(s, k);
    }
  }

  lemma FilteredTables(s: State, n: nat)
    requires Mid(s, n)
    ensures var t := Filtered(s); Table(t) && Descriptors(t) && DistinctIds(t)
  {
    var t := Filtered(s);
    var gone := Gone(s.dropped);
    KeptDistinct(s.pfds, gone);
    KeptMembers(s.pfds, gone);
    ListenerStays(s, n);
    forall a | 0 < a < |t.pfds|
      ensures if t.pfds[a].wantsWrite then t.pfds[a].fd in t.clients else SpawnedPipe(t.log, t.pfds[a].fd)
    {
      assert t.pfds[a] in t.pfds;
      var b :| 0 <= b < |s.pfds| && s.pfds[b] == t.pfds[a];
      assert t.pfds[a].fd != s.listener;
      assert b > 0;
    }
    FilteredDescriptors(s, n);
  }

  lemma ListenerStays(s: State, n: nat)
    requires Mid(s, n)
    ensures s.listener !in s.dropped
    ensures Filtered(s).pfds != [] && Filtered(s).pfds[0] == s.pfds[0]
  {
    PosOfEntry(s.pfds, 0);
  }

  lemma FilteredDescriptors(s: State, n: nat)
    requires Mid(s, n)
    ensures Descriptors(Filtered(s))
  {
    var t := Filtered(s);
    var gone := Gone(s.dropped);
    KeptMembers(s.pfds, gone);
    forall a | 0 <= a < |t.pfds|
      ensures t.pfds[a].fd in t.open
    {
      assert t.pfds[a] in t.pfds;
      var b :| 0 <= b < |s.pfds| && s.pfds[b] == t.pfds[a];
    }
    if s.pending.Some? {
      var fd := s.pending.value.0;
      assert fd !in gone;
      KeptPos(s.pfds, gone, fd);
    }
  }

  lemma FilteredClient(s: State, n: nat, k: int)
    requires Mid(s, n) && k in s.clients && k !in s.dropped
    ensures Waiting(Filtered(s), k)
  {
    var t := Filtered(s);
    var gone := Gone(s.dropped);
    var c := s.clients[k];
    assert ClientOk(s, n, k);
    ListenerStays(s, n);
    PosOfEntry(s.pfds, 0);
    KeptDistinct(s.pfds, gone);
    KeptMembers(s.pfds, gone);
    KeptOrder(s.pfds, gone, s.listener, k);
    PosOfEntry(t.pfds, Pos(t.pfds, k));
    assert t.pfds[Pos(t.pfds, k)] in t.pfds;
    SameEntry(s.pfds, t.pfds[Pos(t.pfds, k)]);
    if c.cgi.Some? {
      var fd := c.cgi.value.readFd;
      if c.cgiAdded {
        KeptOrder(s.pfds, gone, k, fd);
      } else {
        assert fd !in gone;
        KeptPos(s.pfds, gone, fd);
      }
    }
  }

  lemma SameEntry(pfds: seq<PollFd>, e: PollFd)
    requires Distinct(pfds) && e in pfds
    ensures Pos(pfds, e.fd) != NPOS && pfds[Pos(pfds, e.fd)] == e
  {
    var a :| 0 <= a < |pfds| && pfds[a] == e;
    PosOfEntry(pfds, a);
  }

  lemma DeletionSettles(s: State, n: nat)
    requires Mid(s, n)
    ensures Between(Deleted(s))
    ensures s.pending.Some? ==> Descriptors(Deleted(s))
  {
    DeletionFilters(s);
    FilteredTables(s, n);
    forall k | k in Filtered(s).clients
      ensures Waiting(Filtered(s), k)
    {
      FilteredClient(s, n, k);
    }
  }

  // Addition.

  lemma WaitingAppended(s: State, e: PollFd, k: int)
    requires k in s.clients && Waiting(s, k)
    requires s.clients[k].cgi.Some? && !s.clients[k].cgiAdded ==> s.clients[k].cgi.value.readFd != e.fd
    ensures Waiting(s.(pfds := s.pfds + [e]), k)
  {
    PosAppended(s.pfds, e, k);
    if s.clients[k].cgi.Some? {
      PosAppended(s.pfds, e, s.clients[k].cgi.value.readFd);
    }
  }

  lemma DistinctAppended(pfds: seq<PollFd>, e: PollFd)
    requires Distinct(pfds) && Pos(pfds, e.fd) == NPOS
    ensures Distinct(pfds + [e])
  {
    PosFinds(pfds, e.fd);
  }

  lemma WaitingPipe(s: State, k: int)
    requires Between(s) && k in s.clients && s.clients[k].cgi.Some?
    ensures SpawnedPipe(s.log, s.clients[k].cgi.value.readFd)
    ensures s.clients[k].cgi.value.readFd !in s.clients && s.clients[k].cgi.value.readFd in s.open
  {
    assert Waiting(s, k);
    SpawnedIsPipe(s.log, s.clients[k].id, s.clients[k].cgi.value.readFd);
    assert s.(pending := None).log == s.log;
  }

  /** The accepted connection joins the vector and the map. */
  lemma ConnectionSettles(s: State, c: Conn, fd: int)
    requires Between(s) && s.pending == Some((fd, c)) && Descriptors(s)
    requires c == NewConn(c.id) && c.id < s.nextId
    requires Unanswered(s.log, c.id) && Unspawned(s.log, c.id) && forall k :: k in s.clients ==> s.clients[k].id != c.id
    ensures Between(WithConnection(s)) && fd in WithConnection(s).clients && WithConnection(s).clients[fd] == c
  {
    var t := WithConnection(s);
    var e := PollFd(fd, true);
    DistinctAppended(s.pfds, e);
    PosAppended(s.pfds, e, fd);
    forall k | k in s.clients
      ensures Waiting(t, k)
    {
      assert Waiting(s, k);
      if s.clients[k].cgi.Some? {
        WaitingPipe(s, k);
      }
      WaitingAppended(s, e, k);
    }
    assert Waiting(t, fd);
    ConnectionDescriptors(s, c, fd);
  }

  lemma ConnectionDescriptors(s: State, c: Conn, fd: int)
    requires Between(s) && s.pending == Some((fd, c)) && Descriptors(s)
    ensures Descriptors(WithConnection(s).(pending := None))
  {
    var t := WithConnection(s).(pending := None);
    assert t.log == s.log && t.open == s.open;
  }

  lemma WaitingPipesDiffer(s: State, k: int, l: int)
    requires Between(s) && k in s.clients && l in s.clients && k != l && s.clients[k].cgi.Some?
        && s.clients[l].cgi.Some?
    ensures s.clients[k].cgi.value.readFd != s.clients[l].cgi.value.readFd
  {
    assert Waiting(s, k) && Waiting(s, l);
    if s.clients[k].cgi.value.readFd == s.clients[l].cgi.value.readFd {
      PipeHasOneOwner(s.log, s.nextId, s.clients[k].id, s.clients[l].id, s.clients[k].cgi.value.readFd);
    }
  }

  lemma PipeJoins(s: State, k: int)
    requires Between(s) && k in s.clients && s.clients[k].cgi.Some? && !s.clients[k].cgiAdded
    ensures Between(WithPipe(s, k))
  {
    var t := WithPipe(s, k);
    var c := s.clients[k];
    var e := PollFd(c.cgi.value.readFd, false);
    assert Waiting(s, k);
    WaitingPipe(s, k);
    DistinctAppended(s.pfds, e);
    forall l | l in t.clients
      ensures Waiting(t, l)
    {
      PosAppended(s.pfds, e, l);
      if l == k {
        PosAppended(s.pfds, e, e.fd);
      } else {
        assert Waiting(s, l);
        if s.clients[l].cgi.Some? {
          WaitingPipesDiffer(s, k, l);
        }
        WaitingAppended(s, e, l);
      }
    }
    PipeTables(s, k);
  }

  lemma PipeTables(s: State, k: int)
    requires Between(s) && k in s.clients && s.clients[k].cgi.Some? && !s.clients[k].cgiAdded
    requires SpawnedPipe(s.log, s.clients[k].cgi.value.readFd) && s.clients[k].cgi.value.readFd in s.open
    requires Distinct(s.pfds + [PollFd(s.clients[k].cgi.value.readFd, false)])
    ensures var t := WithPipe(s, k); Table(t) && Descriptors(t.(pending := None)) && DistinctIds(t)
  {
    var t := WithPipe(s, k);
    assert t.clients.Keys == s.clients.Keys;
    assert forall l :: l in t.clients ==> t.clients[l].id == s.clients[l].id;
    assert forall a :: 0 <= a < |s.pfds| ==> t.pfds[a] == s.pfds[a];
    var u, v := s.(pending := None), t.(pending := None);
    assert v.log == u.log && v.open == u.open;
  }

  lemma {:induction false} PipesJoin(s: State, keys: seq<int>)
    requires Between(s) && forall i :: 0 <= i < |keys| ==> keys[i] in s.clients
    ensures Between(WithPipes(s, keys))
    decreases |keys|
  {
    if keys != [] {
      var k := keys[0];
      if s.clients[k].cgi.Some? && !s.clients[k].cgiAdded {
        PipeJoins(s, k);
      }
      assert WithPipe(s, k).clients.Keys == s.clients.Keys;
      PipesJoin(WithPipe(s, k), keys[1..]);
    }
  }

  /** A connection as it was, or with its CGI's entry added. */
  predicate Joined(c: Conn, c': Conn) {
    c' == c || (c.cgi.Some? && c' == c.(cgiAdded := true))
  }

  lemma JoinedTwice(c: Conn, c': Conn, c'': Conn)
    requires Joined(c, c') && Joined(c', c'')
    ensures Joined(c, c'') && (c'.cgiAdded ==> c''.cgiAdded)
  {
  }

  lemma {:induction false} PipesAreJoined(s: State, keys: seq<int>, k: int)
    requires k in s.clients && forall i :: 0 <= i < |keys| ==> keys[i] in s.clients
    ensures var t := WithPipes(s, keys);
            && t.clients.Keys == s.clients.Keys && t.log == s.log && Joined(s.clients[k], t.clients[k])
            && (k in keys && s.clients[k].cgi.Some? ==> t.clients[k].cgiAdded)
    decreases |keys|
  {
    if keys != [] {
      var s1 := WithPipe(s, keys[0]);
      assert s1.clients.Keys == s.clients.Keys;
      PipesAreJoined(s1, keys[1..], k);
      JoinedTwice(s.clients[k], s1.clients[k], WithPipes(s, keys).clients[k]);
    }
  }

  lemma {:induction false} PipesKeepKeys(s: State, keys: seq<int>)
    requires forall i :: 0 <= i < |keys| ==> keys[i] in s.clients
    ensures WithPipes(s, keys).clients.Keys == s.clients.Keys && WithPipes(s, keys).log == s.log
    decreases |keys|
  {
    if keys != [] {
      assert WithPipe(s, keys[0]).clients.Keys == s.clients.Keys;
      PipesKeepKeys(WithPipe(s, keys[0]), keys[1..]);
    }
  }

  /** Every CGI has its entry once all clients have been looked at. */
  lemma AllPipesJoin(u: State)
    requires Between(u)
    ensures var v := WithPipes(u, SortedKeys(u.clients.Keys));
            && Inv(v) && v.clients.Keys == u.clients.Keys && v.log == u.log
            && (forall k :: k in u.clients && u.clients[k].cgi.None? ==> v.clients[k] == u.clients[k])
  {
    var keys := SortedKeys(u.clients.Keys);
    PipesJoin(u, keys);
    PipesKeepKeys(u, keys);
    var v := WithPipes(u, keys);
    forall k | k in v.clients
      ensures v.clients[k].cgi.Some? ==> v.clients[k].cgiAdded
      ensures u.clients[k].cgi.None? ==> v.clients[k] == u.clients[k]
    {
      PipesAreJoined(u, keys, k);
    }
    BetweenIsInv(v);
  }

  ghost predicate PendingBetween(t: State) {
    t.pending.Some? ==>
      var (fd, c) := t.pending.value;
      && Descriptors(t) && c == NewConn(c.id) && c.id < t.nextId
      && Unanswered(t.log, c.id) && Unspawned(t.log, c.id) && forall k :: k in t.clients ==> t.clients[k].id != c.id
  }

  lemma AdditionSettles(t: State)
    requires Between(t) && PendingBetween(t)
    ensures Inv(Added(t)) && Added(t).log == t.log
    ensures Added(t).clients.Keys == t.clients.Keys + (if t.pending.Some? then {t.pending.value.0} else {})
    ensures t.pending.Some? ==> Added(t).clients[t.pending.value.0] == t.pending.value.1
  {
    var u := WithConnection(t);
    if t.pending.Some? {
      ConnectionSettles(t, t.pending.value.1, t.pending.value.0);
    }
    AllPipesJoin(u);
    ConnectionKeys(t);
  }

  lemma ConnectionKeys(t: State)
    requires t.pending.Some? ==> t.pending.value.0 !in t.clients
    ensures WithConnection(t).clients.Keys == t.clients.Keys + (if t.pending.Some? then {t.pending.value.0} else {})
    ensures WithConnection(t).log == t.log
  {
  }

  /** The end of a round restores the loop invariant and takes in the accepted connection. */
  lemma RoundEnds(s: State, n: nat)
    requires Mid(s, n)
    ensures Inv(Added(Deleted(s))) && Added(Deleted(s)).log == s.log
    ensures Added(Deleted(s)).clients.Keys
        == (s.clients.Keys - Gone(s.dropped)) + (if s.pending.Some? then {s.pending.value.0} else {})
    ensures s.pending.Some? ==> Added(Deleted(s)).clients[s.pending.value.0] == s.pending.value.1
  {
    DeletionSettles(s, n);
    DeletionFilters(s);
    assert Deleted(s).clients.Keys == s.clients.Keys - Gone(s.dropped);
    assert PendingBetween(Deleted(s));
    AdditionSettles(Deleted(s));
  }

  // Dispatch.

  /** The kernel's answers are legal as the entries from `i` on are handled. */
  predicate LegalFrom(s: State, i: nat, answers: seq<Answer>)
    requires i <= |s.pfds| && |answers| == |s.pfds|
    decreases |s.pfds| - i
  {
    i < |s.pfds| ==>
      && Legal(s, i, answers[i])
      && (Entry(s, i, answers[i]).Alive? ==> LegalFrom(Entry(s, i, answers[i]).state, i + 1, answers))
  }

  /** A dispatch keeps the invariant, and keeps what has been observed in order even when it
      does not come to its end. */
  lemma {:induction false} DispatchKeeps(s: State, i: nat, answers: seq<Answer>)
    requires i <= |s.pfds| && |answers| == |s.pfds| && Mid(s, i) && LegalFrom(s, i, answers)
    ensures Dispatch(s, i, answers).Alive? ==> Mid(Dispatch(s, i, answers).state, |s.pfds|)
    ensures LogOk(Dispatch(s, i, answers).state.log, Dispatch(s, i, answers).state.nextId)
    decreases |s.pfds| - i
  {
    if i < |s.pfds| {
      EntryKeeps(s, i, answers[i]);
      if Entry(s, i, answers[i]).Alive? {
        DispatchKeeps(Entry(s, i, answers[i]).state, i + 1, answers);
      }
    }
  }

  predicate LegalRound(s: State, answers: seq<Answer>)
    requires |answers| == |s.pfds|
  {
    LegalFrom(s.(pending := None), 0, answers)
  }

  lemma RoundKeeps(s: State, answers: seq<Answer>)
    requires Inv(s) && |answers| == |s.pfds| && LegalRound(s, answers)
    ensures Round(s, answers).Alive? ==> Inv(Round(s, answers).state)
    ensures LogOk(Round(s, answers).state.log, Round(s, answers).state.nextId)
  {
    var s0 := s.(pending := None);
    if AnyReady(answers) {
      DispatchKeeps(s0, 0, answers);
      if Dispatch(s0, 0, answers).Alive? {
        RoundEnds(Dispatch(s0, 0, answers).state, |s0.pfds|);
      }
    } else {
      assert s0.(pending := None) == s0;
    }
  }
}
