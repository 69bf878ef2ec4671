/** Grouping servers by port and choosing the server and the route of a request. */
module Routing {
  import opened CppStrings
  import opened ConfigMachine
  import opened ConfigRoundTrip
  import opened RequestModel
  import RequestSpec

  const NOT_FOUND := 404

  datatype PortGroup = PortGroup(host: string, port: int, servers: seq<ServerTree>)

  // Grouping.

  /** The position of the first group for `port`, or the number of groups. */
  function PositionOf(groups: seq<PortGroup>, port: int): (i: nat)
    ensures i <= |groups|
    ensures i < |groups| ==> groups[i].port == port
    ensures forall j :: 0 <= j < i ==> groups[j].port != port
  {
    if groups == [] then 0 else if groups[0].port == port then 0 else PositionOf(groups[1..], port) + 1
  }

  function WithServer(groups: seq<PortGroup>, server: ServerTree): seq<PortGroup> {
    var i := PositionOf(groups, server.port);
    if i < |groups| then groups[i := groups[i].(servers := groups[i].servers + [server])]
    else groups + [PortGroup(server.host, server.port, [server])]
  }

  /** Emptying the server stack, whose top is its last element, into the groups. */
  function Grouped(groups: seq<PortGroup>, stack: seq<ServerTree>): seq<PortGroup>
    decreases |stack|
  {
    if stack == [] then groups
    else Grouped(WithServer(groups, stack[|stack| - 1]), stack[..|stack| - 1])
  }

  method GroupServerConfigs(portConfigs: seq<PortGroup>, serverBlocks: seq<ServerTree>)
    returns (groups: seq<PortGroup>, remaining: seq<ServerTree>)
    ensures groups == Grouped(portConfigs, serverBlocks) && remaining == []
  {
    groups, remaining := portConfigs, serverBlocks;
    while remaining != []
      invariant Grouped(groups, remaining) == Grouped(portConfigs, serverBlocks)
      decreases |remaining|
    {
      var server := remaining[|remaining| - 1];
      ghost var expected := WithServer(groups, server);
      var it := 0;
      while it < |groups|
        invariant 0 <= it <= |groups|
        invariant forall j :: 0 <= j < it ==> groups[j].port != server.port
      {
        if groups[it].port == server.port {
          break;
        }
        it := it + 1;
      }
      assert it == PositionOf(groups, server.port);
      if it == |groups| {
        groups := groups + [PortGroup(server.host, server.port, [server])];
      } else {
        groups := groups[it := groups[it].(servers := groups[it].servers + [server])];
      }
      assert groups == expected;
      remaining := remaining[..|remaining| - 1];
    }
  }

  predicate DistinctPorts(groups: seq<PortGroup>) {
    forall i, j :: 0 <= i < j < |groups| ==> groups[i].port != groups[j].port
  }

  /** The servers grouped under `port`. */
  function Members(groups: seq<PortGroup>, port: int): seq<ServerTree> {
    if PositionOf(groups, port) < |groups| then groups[PositionOf(groups, port)].servers else []
  }

  /** The servers declared on `port`, last declared first. */
  function LastFirst(servers: seq<ServerTree>, port: int): seq<ServerTree> {
    if servers == [] then []
    else
      var last := servers[|servers| - 1];
      (if last.port == port then [last] else []) + LastFirst(servers[..|servers| - 1], port)
  }

  function Flat(groups: seq<PortGroup>): seq<ServerTree> {
    if groups == [] then [] else Flat(groups[..|groups| - 1]) + groups[|groups| - 1].servers
  }

  lemma PositionUnique(groups: seq<PortGroup>, i: nat, port: int)
    requires DistinctPorts(groups) && i < |groups| && groups[i].port == port
    ensures PositionOf(groups, port) == i
  {
  }

  lemma AddingKeepsGroups(groups: seq<PortGroup>, server: ServerTree, port: int)
    requires DistinctPorts(groups)
    ensures DistinctPorts(WithServer(groups, server))
    ensures Members(WithServer(groups, server), port)
        == Members(groups, port) + (if server.port == port then [server] else [])
  {
    var i := PositionOf(groups, server.port);
    var more := WithServer(groups, server);
    if i < |groups| {
      assert forall j :: 0 <= j < |groups| ==> more[j].port == groups[j].port;
      var k := PositionOf(groups, port);
      if k < |groups| {
        PositionUnique(more, k, port);
      }
    } else {
      assert forall j :: 0 <= j < |groups| ==> more[j] == groups[j];
      var k := PositionOf(groups, port);
      if k < |groups| {
        PositionUnique(more, k, port);
      } else if server.port == port {
        PositionUnique(more, |groups|, port);
      }
    }
  }

  lemma {:induction false} GroupedMembers(groups: seq<PortGroup>, stack: seq<ServerTree>, port: int)
    requires DistinctPorts(groups)
    ensures DistinctPorts(Grouped(groups, stack))
    ensures Members(Grouped(groups, stack), port) == Members(groups, port) + LastFirst(stack, port)
    decreases |stack|
  {
    if stack != [] {
      AddingKeepsGroups(groups, stack[|stack| - 1], port);
      GroupedMembers(WithServer(groups, stack[|stack| - 1]), stack[..|stack| - 1], port);
    }
  }

  lemma {:induction false} FlatUpdate(groups: seq<PortGroup>, i: nat, server: ServerTree)
    requires i < |groups|
    ensures multiset(Flat(groups[i := groups[i].(servers := groups[i].servers + [server])]))
        == multiset(Flat(groups)) + multiset{server}
  {
    var more := groups[i := groups[i].(servers := groups[i].servers + [server])];
    var front := groups[..|groups| - 1];
    if i == |groups| - 1 {
      assert more[..|groups| - 1] == front;
      assert Flat(more) == Flat(front) + (groups[i].servers + [server]);
    } else {
      FlatUpdate(front, i, server);
      assert more[..|groups| - 1] == front[i := front[i].(servers := front[i].servers + [server])];
    }
  }

  lemma AddingConserves(groups: seq<PortGroup>, server: ServerTree)
    ensures multiset(Flat(WithServer(groups, server))) == multiset(Flat(groups)) + multiset{server}
  {
    if PositionOf(groups, server.port) < |groups| {
      FlatUpdate(groups, PositionOf(groups, server.port), server);
    } else {
      assert WithServer(groups, server)[..|groups|] == groups;
    }
  }

  lemma MultisetOfStack(stack: seq<ServerTree>)
    requires stack != []
    ensures multiset(stack) == multiset{stack[|stack| - 1]} + multiset(stack[..|stack| - 1])
  {
    assert stack == stack[..|stack| - 1] + [stack[|stack| - 1]];
  }

  lemma MultisetsRegroup(a: multiset<ServerTree>, b: multiset<ServerTree>, c: multiset<ServerTree>)
    ensures a + b + c == a + (b + c)
  {
  }

  lemma {:induction false} GroupedConserves(groups: seq<PortGroup>, stack: seq<ServerTree>)
    ensures multiset(Flat(Grouped(groups, stack))) == multiset(Flat(groups)) + multiset(stack)
    decreases |stack|
  {
    if stack != [] {
      var server, rest := stack[|stack| - 1], stack[..|stack| - 1];
      AddingConserves(groups, server);
      GroupedConserves(WithServer(groups, server), rest);
      MultisetOfStack(stack);
      MultisetsRegroup(multiset(Flat(groups)), multiset{server}, multiset(rest));
    }
  }

  lemma {:induction false} GroupsFilled(groups: seq<PortGroup>, stack: seq<ServerTree>)
    requires forall i :: 0 <= i < |groups| ==> groups[i].servers != []
    ensures forall i :: 0 <= i < |Grouped(groups, stack)| ==> Grouped(groups, stack)[i].servers != []
    decreases |stack|
  {
    if stack != [] {
      GroupsFilled(WithServer(groups, stack[|stack| - 1]), stack[..|stack| - 1]);
    }
  }

  lemma MembersFromNothing(declared: seq<ServerTree>, port: int)
    ensures DistinctPorts(Grouped([], declared))
    ensures Members(Grouped([], declared), port) == LastFirst(declared, port)
  {
    GroupedMembers([], declared, port);
    assert [] + LastFirst(declared, port) == LastFirst(declared, port);
  }

  lemma GroupIsLastFirst(declared: seq<ServerTree>, i: nat)
    requires i < |Grouped([], declared)|
    ensures Grouped([], declared)[i].servers == LastFirst(declared, Grouped([], declared)[i].port)
  {
    var groups := Grouped([], declared);
    MembersFromNothing(declared, groups[i].port);
    PositionUnique(groups, i, groups[i].port);
  }

  lemma PortHasGroup(declared: seq<ServerTree>, k: nat)
    requires k < |declared|
    ensures PositionOf(Grouped([], declared), declared[k].port) < |Grouped([], declared)|
  {
    MembersFromNothing(declared, declared[k].port);
    LastFirstIsLast(declared, declared[k].port, v => true, k);
  }

  /** Grouping is a partition by port: no server is lost or doubled, no port has two groups,
      and each group holds the servers of its port, the last declared one first. */
  lemma GroupingIsAPartition(declared: seq<ServerTree>)
    ensures var groups := Grouped([], declared);
            && DistinctPorts(groups)
            && multiset(Flat(groups)) == multiset(declared)
            && (forall i :: 0 <= i < |groups| ==>
                  groups[i].servers == LastFirst(declared, groups[i].port) && groups[i].servers != [])
            && (forall k :: 0 <= k < |declared| ==> PositionOf(groups, declared[k].port) < |groups|)
  {
    var groups := Grouped([], declared);
    GroupedConserves([], declared);
    GroupsFilled([], declared);
    GroupedMembers([], declared, 0);
    forall i | 0 <= i < |groups|
      ensures groups[i].servers == LastFirst(declared, groups[i].port)
    {
      GroupIsLastFirst(declared, i);
    }
    forall k | 0 <= k < |declared|
      ensures PositionOf(groups, declared[k].port) < |groups|
    {
      PortHasGroup(declared, k);
    }
  }

  // Choosing a server.

  /** The first server of a list that `chosen` accepts. */
  function FirstWhere(servers: seq<ServerTree>, chosen: ServerTree -> bool): Option<ServerTree> {
    if servers == [] then None
    else if chosen(servers[0]) then Some(servers[0]) else FirstWhere(servers[1..], chosen)
  }

  predicate IsLastOnPort(declared: seq<ServerTree>, port: int, chosen: ServerTree -> bool, k: int) {
    && 0 <= k < |declared| && declared[k].port == port && chosen(declared[k])
    && forall j :: k < j < |declared| ==> !(declared[j].port == port && chosen(declared[j]))
  }

  /** The first accepted member of a group is the last accepted one that was declared. */
  lemma {:induction false} LastFirstIsLast(declared: seq<ServerTree>, port: int, chosen: ServerTree -> bool, known: int)
    requires 0 <= known < |declared| && declared[known].port == port && chosen(declared[known])
    ensures LastFirst(declared, port) != []
    ensures FirstWhere(LastFirst(declared, port), chosen).Some?
    ensures exists k ::
        IsLastOnPort(declared, port, chosen, k) && FirstWhere(LastFirst(declared, port), chosen) == Some(declared[k])
    decreases |declared|
  {
    var last, front := |declared| - 1, declared[..|declared| - 1];
    var here := if declared[last].port == port then [declared[last]] else [];
    var list := LastFirst(declared, port);
    assert list == here + LastFirst(front, port);
    if declared[last].port == port && chosen(declared[last]) {
      assert list[0] == declared[last];
      assert IsLastOnPort(declared, port, chosen, last);
    } else {
      LastFirstIsLast(front, port, chosen, known);
      assert here != [] ==> list[1..] == LastFirst(front, port);
      assert here == [] ==> list == LastFirst(front, port);
      var k :| IsLastOnPort(front, port, chosen, k) && FirstWhere(LastFirst(front, port), chosen) == Some(front[k]);
      assert IsLastOnPort(declared, port, chosen, k);
    }
  }

  lemma {:induction false} NoneWhere(servers: seq<ServerTree>, chosen: ServerTree -> bool)
    ensures FirstWhere(servers, chosen).None? <==> forall i :: 0 <= i < |servers| ==> !chosen(servers[i])
  {
    if servers != [] {
      NoneWhere(servers[1..], chosen);
    }
  }

  function NamedLike(headers: map<string, string>): ServerTree -> bool {
    (v: ServerTree) => "Host" in headers && headers["Host"] in v.names
  }

  /** The server of a group that answers a request. */
  function Selected(servers: seq<ServerTree>, headers: map<string, string>): ServerTree
    requires servers != []
  {
    FirstWhere(servers, NamedLike(headers)).GetOr(servers[0])
  }

  lemma {:induction false} OnPortInLastFirst(declared: seq<ServerTree>, port: int, i: nat)
    requires i < |LastFirst(declared, port)|
    ensures exists k :: 0 <= k < |declared| && declared[k] == LastFirst(declared, port)[i] && declared[k].port == port
    decreases |declared|
  {
    var last, front := |declared| - 1, declared[..|declared| - 1];
    var here := if declared[last].port == port then [declared[last]] else [];
    if i < |here| {
      assert declared[last] == LastFirst(declared, port)[i];
    } else {
      OnPortInLastFirst(front, port, i - |here|);
      var k :| 0 <= k < |front| && front[k] == LastFirst(front, port)[i - |here|] && front[k].port == port;
      assert declared[k] == front[k];
    }
  }

  /** Server `k` is declared on `port` and has the Host value among its names. */
  ghost predicate IsNamedAt(declared: seq<ServerTree>, port: int, headers: map<string, string>, k: int) {
    0 <= k < |declared| && declared[k].port == port && "Host" in headers && headers["Host"] in declared[k].names
  }

  /** The server that answers on `port`: the last declared one whose names hold the Host
      value, or else the last declared one. */
  ghost predicate IsVirtualHost(declared: seq<ServerTree>, port: int, headers: map<string, string>,
      answer: ServerTree) {
    if exists k :: IsNamedAt(declared, port, headers, k)
    then exists k :: IsNamedAt(declared, port, headers, k) && answer == declared[k]
             && forall j :: j > k ==> !IsNamedAt(declared, port, headers, j)
    else exists k :: 0 <= k < |declared| && declared[k].port == port && answer == declared[k]
             && forall j :: k < j < |declared| ==> declared[j].port != port
  }

  lemma LastNamedIsVirtualHost(declared: seq<ServerTree>, port: int, headers: map<string, string>, k: int)
    requires IsLastOnPort(declared, port, NamedLike(headers), k)
    ensures IsVirtualHost(declared, port, headers, declared[k])
  {
    assert IsNamedAt(declared, port, headers, k);
    assert forall j :: IsNamedAt(declared, port, headers, j) ==> NamedLike(headers)(declared[j]);
  }

  lemma LastIsVirtualHost(declared: seq<ServerTree>, port: int, headers: map<string, string>, k: int)
    requires IsLastOnPort(declared, port, v => true, k)
    requires forall j :: 0 <= j < |declared| && declared[j].port == port ==> !NamedLike(headers)(declared[j])
    ensures IsVirtualHost(declared, port, headers, declared[k])
  {
    assert forall j :: 0 <= j < |declared| ==>
        (IsNamedAt(declared, port, headers, j) <==> declared[j].port == port && NamedLike(headers)(declared[j]));
  }

  /** The first match among the servers of a port, newest first, is the virtual host. */
  lemma SelectedIsLastDeclared(declared: seq<ServerTree>, port: int, headers: map<string, string>)
    requires exists k :: 0 <= k < |declared| && declared[k].port == port
    ensures LastFirst(declared, port) != []
    ensures IsVirtualHost(declared, port, headers, Selected(LastFirst(declared, port), headers))
  {
    var any: ServerTree -> bool := v => true;
    var named := NamedLike(headers);
    var members := LastFirst(declared, port);
    var w :| 0 <= w < |declared| && declared[w].port == port;
    LastFirstIsLast(declared, port, any, w);
    assert FirstWhere(members, any) == Some(members[0]);
    if k :| 0 <= k < |declared| && declared[k].port == port && named(declared[k]) {
      LastFirstIsLast(declared, port, named, k);
      var n :| IsLastOnPort(declared, port, named, n) && FirstWhere(members, named) == Some(declared[n]);
      LastNamedIsVirtualHost(declared, port, headers, n);
    } else {
      NoneWhere(members, named);
      forall i | 0 <= i < |members|
        ensures !named(members[i])
      {
        OnPortInLastFirst(declared, port, i);
      }
      var n :| IsLastOnPort(declared, port, any, n) && FirstWhere(members, any) == Some(declared[n]);
      LastIsVirtualHost(declared, port, headers, n);
    }
  }

  // Choosing a route.

  /** The target less one trailing slash, "/" itself excepted. */
  function StrippedTarget(target: string): string
    requires target != ""
  {
    if target[|target| - 1] == '/' && target != "/" then target[..|target| - 1] else target
  }

  function FirstRoute(routes: seq<Route>, target: string): Option<Route> {
    if routes == [] then None
    else if routes[0].baseUrl == target then Some(routes[0]) else FirstRoute(routes[1..], target)
  }

  ghost predicate IsFirstRoute(routes: seq<Route>, target: string, i: int) {
    0 <= i < |routes| && routes[i].baseUrl == target && forall j :: 0 <= j < i ==> routes[j].baseUrl != target
  }

  lemma {:induction false} FirstRouteIsFirst(routes: seq<Route>, target: string)
    ensures match FirstRoute(routes, target)
            case Some(r) => exists i :: IsFirstRoute(routes, target, i) && r == routes[i]
            case None => forall j :: 0 <= j < |routes| ==> routes[j].baseUrl != target
  {
    if routes != [] {
      if routes[0].baseUrl == target {
        assert IsFirstRoute(routes, target, 0);
      } else {
        FirstRouteIsFirst(routes[1..], target);
        if FirstRoute(routes[1..], target).Some? {
          var i :| IsFirstRoute(routes[1..], target, i) && FirstRoute(routes[1..], target).value == routes[1..][i];
          assert forall j :: 0 < j < i + 1 ==> routes[j] == routes[1..][j - 1];
          assert IsFirstRoute(routes, target, i + 1);
        }
      }
    }
  }

  /** What the route match delivers: the route, the error pages and the body limit, and the
      request's status behind it. */
  datatype Matching = Matching(route: Option<Route>, errorFiles: map<int, string>, maxBodySize: int, status: int)

  function MatchingFor(servers: seq<ServerTree>, status: int, headers: map<string, string>, target: string): Matching
    requires servers != [] && target != ""
  {
    var server := Selected(servers, headers);
    var route := if status == RequestSpec.OK then FirstRoute(server.routes, StrippedTarget(target)) else None;
    Matching(route, server.errorFiles, server.maxBodySize,
             if status == RequestSpec.OK && route.None? then NOT_FOUND else status)
  }

  class PortConfig {
    const host: string
    const port: int
    const servers: seq<ServerTree>

    constructor (group: PortGroup)
      ensures host == group.host && port == group.port && servers == group.servers
    {
      host, port, servers := group.host, group.port, group.servers;
    }

    method GetMatchingServerBlock(request: Request)
        returns (server: ServerTree, errorFiles: map<int, string>, maxBodySize: int)
      requires servers != []
      ensures server == Selected(servers, request.headers)
      ensures errorFiles == server.errorFiles && maxBodySize == server.maxBodySize
    {
      if |servers| > 1 {
        if "Host" in request.headers {
          var value := request.headers["Host"];
          var i := 0;
          assert servers[0..] == servers;
          while i < |servers|
            invariant 0 <= i <= |servers|
            invariant FirstWhere(servers[i..], NamedLike(request.headers))
                == FirstWhere(servers, NamedLike(request.headers))
          {
            assert servers[i..][1..] == servers[i + 1..];
            if value in servers[i].names {
              return servers[i], servers[i].errorFiles, servers[i].maxBodySize;
            }
            i := i + 1;
          }
          assert servers[|servers|..] == [];
        } else {
          NoneWhere(servers, NamedLike(request.headers));
        }
      } else {
        assert servers[1..] == [];
        assert FirstWhere(servers[1..], NamedLike(request.headers)) == None;
      }
      return servers[0], servers[0].errorFiles, servers[0].maxBodySize;
    }

    /** The route for a request and, whatever the route, the selected server's error pages and
        body limit. Without a route an untroubled request becomes 404. An empty target is read
        before its start, which `defined` reports. */
    method GetMatchingRoute(request: Request)
      returns (defined: bool, route: Option<Route>, errorFiles: map<int, string>, maxBodySize: int)
      requires servers != []
      modifies request`status
      ensures defined <==> request.target != ""
      ensures defined ==> Matching(route, errorFiles, maxBodySize, request.status)
                          == MatchingFor(servers, old(request.status), request.headers, request.target)
    {
      route, errorFiles, maxBodySize := None, map[], 0;
      var target := request.target;
      if target == "" {
        return false, route, errorFiles, maxBodySize;
      }
      defined := true;
      if target[|target| - 1] == '/' && target != "/" {
        target := target[..|target| - 1];
      }
      var server;
      server, errorFiles, maxBodySize := GetMatchingServerBlock(request);
      if request.status == RequestSpec.OK {
        var i := 0;
        assert server.routes[0..] == server.routes;
        while i < |server.routes|
          invariant 0 <= i <= |server.routes|
          invariant FirstRoute(server.routes[i..], target) == FirstRoute(server.routes, target)
        {
          assert server.routes[i..][1..] == server.routes[i + 1..];
          if server.routes[i].baseUrl == target {
            return true, Some(server.routes[i]), errorFiles, maxBodySize;
          }
          i := i + 1;
        }
        request.status := NOT_FOUND;
      }
    }
  }

  /** A route is for a target that is its URL, or its URL with one slash more; only "/" is
      not the URL "" with a slash. */
  predicate IsFor(url: string, target: string) {
    if target == "/" then url == "/"
    else if target != "" && target[|target| - 1] == '/' then target == url + "/"
    else target == url
  }

  /** What a request gets from the virtual host that answers it: its error pages and its body
      limit, and the first of its routes for the target, or 404 when none is for it. */
  ghost predicate IsAnswerOf(host: ServerTree, target: string, m: Matching) {
    && m.errorFiles == host.errorFiles && m.maxBodySize == host.maxBodySize
    && if exists i :: 0 <= i < |host.routes| && IsFor(host.routes[i].baseUrl, target)
       then && m.status == RequestSpec.OK
            && exists i :: 0 <= i < |host.routes| && IsFor(host.routes[i].baseUrl, target)
                 && m.route == Some(host.routes[i])
                 && forall j :: 0 <= j < i ==> !IsFor(host.routes[j].baseUrl, target)
       else m.status == NOT_FOUND && m.route == None
  }

  lemma StrippedIsFor(url: string, target: string)
    requires target != ""
    ensures IsFor(url, target) <==> url == StrippedTarget(target)
  {
    if target != "/" && target[|target| - 1] == '/' {
      assert target == target[..|target| - 1] + "/";
      if target == url + "/" {
        assert target[..|target| - 1] == url;
      }
    }
  }

  lemma MatchingIsAnswer(servers: seq<ServerTree>, headers: map<string, string>, target: string)
    requires servers != [] && target != ""
    ensures IsAnswerOf(Selected(servers, headers), target, MatchingFor(servers, RequestSpec.OK, headers, target))
  {
    var routes := Selected(servers, headers).routes;
    FirstRouteIsFirst(routes, StrippedTarget(target));
    forall i | 0 <= i < |routes|
      ensures IsFor(routes[i].baseUrl, target) <==> routes[i].baseUrl == StrippedTarget(target)
    {
      StrippedIsFor(routes[i].baseUrl, target);
    }
    if i :| IsFirstRoute(routes, StrippedTarget(target), i) {
      assert IsFor(routes[i].baseUrl, target);
    }
  }

  /** From declared servers to the answer: grouping puts the servers of `port` together, and a
      request there is answered by the last declared one that is named like its Host, or else
      by the last declared one. */
  lemma DeclaredServersAnswer(declared: seq<ServerTree>, port: int, headers: map<string, string>, target: string)
    requires target != "" && exists k :: 0 <= k < |declared| && declared[k].port == port
    ensures var groups := Grouped([], declared);
            var g := PositionOf(groups, port);
            && g < |groups| && groups[g].port == port && groups[g].servers != []
            && exists host :: IsVirtualHost(declared, port, headers, host)
                 && IsAnswerOf(host, target,
                     MatchingFor(groups[g].servers, RequestSpec.OK, headers, target))
  {
    var groups := Grouped([], declared);
    GroupingIsAPartition(declared);
    SelectedIsLastDeclared(declared, port, headers);
    var servers := groups[PositionOf(groups, port)].servers;
    MatchingIsAnswer(servers, headers, target);
    assert IsVirtualHost(declared, port, headers, Selected(servers, headers));
  }

  /** The same from the text of a configuration file on, for every text that is accepted. */
  lemma AcceptedTextAnswers(fs: FileSystem, text: string, port: int, headers: map<string, string>, target: string)
    requires Compile(fs, text).Accepted? && target != ""
    requires var declared := Trees(Compile(fs, text).state); exists k :: 0 <= k < |declared| && declared[k].port == port
    ensures var declared := Trees(Compile(fs, text).state);
            var groups := Grouped([], declared);
            var g := PositionOf(groups, port);
            && g < |groups| && groups[g].port == port && groups[g].servers != []
            && exists host :: IsVirtualHost(declared, port, headers, host)
                 && IsAnswerOf(host, target,
                     MatchingFor(groups[g].servers, RequestSpec.OK, headers, target))
  {
    DeclaredServersAnswer(Trees(Compile(fs, text).state), port, headers, target);
  }

  /** For a printed configuration tree the declared servers are the ones that are written. */
  lemma ConfiguredServerAnswers(fs: FileSystem, blocks: seq<ServerBlock>, port: int, headers: map<string, string>,
      target: string)
    requires blocks != [] && forall i :: 0 <= i < |blocks| ==> WellFormed(fs, blocks[i])
    requires target != "" && exists k :: 0 <= k < |blocks| && Meanings(fs, blocks)[k].port == port
    ensures Compile(fs, ConfigText(blocks)).Accepted?
    ensures var groups := Grouped([], Trees(Compile(fs, ConfigText(blocks)).state));
            var g := PositionOf(groups, port);
            && g < |groups| && groups[g].port == port && groups[g].servers != []
            && exists host :: IsVirtualHost(Meanings(fs, blocks), port, headers, host)
                 && IsAnswerOf(host, target,
                     MatchingFor(groups[g].servers, RequestSpec.OK, headers, target))
  {
    ConfigRoundTrip.ConfigRoundTrip(fs, blocks);
    DeclaredServersAnswer(Meanings(fs, blocks), port, headers, target);
  }
}
