/** The mapping loop works line by line: a directive never reads past the newline that ends
    its line. Comment erasure and the printing round trip both rest on this. */
module ConfigLines {
  import opened CppStrings
  import opened Numbers
  import opened Tokenizer
  import opened ConfigMachine

  predicate EndsLine(tokens: seq<string>) {
    tokens == [] || tokens[|tokens| - 1] == NL
  }

  lemma {:induction false} FromNewlineLocal(a: seq<string>, b: seq<string>)
    requires a != [] && EndsLine(a)
    ensures FromNewline(a) != [] && EndsLine(FromNewline(a))
    ensures FromNewline(a + b) == FromNewline(a) + b && LineWords(a + b) == LineWords(a)
    decreases |a|
  {
    if a[0] != NL {
      assert (a + b)[1..] == a[1..] + b;
      FromNewlineLocal(a[1..], b);
    }
  }

  /** The words of a line are read up to its newline. */
  lemma {:induction false} WordsThenNewline(words: seq<string>, rest: seq<string>)
    requires NL !in words
    ensures FromNewline(words + [NL] + rest) == [NL] + rest && LineWords(words + [NL] + rest) == words
  {
    var tokens := words + [NL] + rest;
    if words == [] {
      assert tokens == [NL] + rest;
    } else {
      assert tokens[0] in words;
      assert tokens[1..] == words[1..] + [NL] + rest;
      WordsThenNewline(words[1..], rest);
    }
  }

  lemma {:induction false} TakeMethodsLocal(a: seq<string>, b: seq<string>, methods: seq<string>)
    requires a != [] && EndsLine(a)
    ensures Extends(TakeMethods(a, methods), TakeMethods(a + b, methods), b)
    decreases |a|
  {
    if a[0] != NL && |methods| < 3 && a[0] in DEFAULT_METHODS {
      assert (a + b)[1..] == a[1..] + b;
      TakeMethodsLocal(a[1..], b, methods + [a[0]]);
    }
  }

  /** Parsing with more tokens behind gives the same result with those tokens left over. */
  ghost predicate Extends<T>(p: Parsed<T>, q: Parsed<T>, b: seq<string>) {
    match p
    case Taken(value, rest) => EndsLine(rest) && rest != [] && q == Taken(value, rest + b)
    case Refused => q.Refused?
    case Undefined => q.Undefined?
  }

  lemma NewlineIsNoNumber()
    ensures StringToInt(NL) == -1
  {
    assert SkipSpaces(NL) == SkipSpaces("");
  }

  /** A directive's name is not a newline, so its line goes on behind it. */
  lemma LineGoesOn(a: seq<string>, b: seq<string>)
    requires a != [] && EndsLine(a) && a[0] != NL
    ensures |a| >= 2 && EndsLine(a[1..])
    ensures (a + b)[0] == a[0] && (a + b)[1..] == a[1..] + b && (a + b)[1] == a[1]
    ensures |a| >= 3 ==> (a + b)[2] == a[2] && (a + b)[2..] == a[2..] + b && EndsLine(a[2..])
    ensures |a| == 2 ==> a[1] == NL
  {
  }

  lemma NumberedLocal(fs: FileSystem, server: Server, a: seq<string>, b: seq<string>)
    requires a != [] && EndsLine(a) && a[0] != NL
    ensures Extends(ParseMaxBodySize(server, a), ParseMaxBodySize(server, a + b), b)
    ensures Extends(ParseErrorPage(fs, server, a), ParseErrorPage(fs, server, a + b), b)
  {
    LineGoesOn(a, b);
    NewlineIsNoNumber();
  }

  lemma ServerDirectiveLocal(fs: FileSystem, server: Server, a: seq<string>, b: seq<string>)
    requires a != [] && EndsLine(a) && a[0] != NL
    ensures Extends(ParseServerDirective(fs, server, a), ParseServerDirective(fs, server, a + b), b)
  {
    assert (a + b)[0] == a[0];
    if a[0] == "listen" {
      LineGoesOn(a, b);
    } else if a[0] == "client_max_body_size" || a[0] == "error_page" {
      NumberedLocal(fs, server, a, b);
    } else {
      LineGoesOn(a, b);
      FromNewlineLocal(a[1..], b);
    }
  }

  lemma MethodsLocal(route: Route, a: seq<string>, b: seq<string>)
    requires a != [] && EndsLine(a) && a[0] != NL
    ensures Extends(ParseAllowedMethods(route, a), ParseAllowedMethods(route, a + b), b)
  {
    LineGoesOn(a, b);
    TakeMethodsLocal(a[1..], b, []);
  }

  lemma WordListsLocal(route: Route, a: seq<string>, b: seq<string>)
    requires a != [] && EndsLine(a) && a[0] != NL
    ensures Extends(ParseIndex(route, a), ParseIndex(route, a + b), b)
    ensures Extends(ParseCgiExtensions(route, a), ParseCgiExtensions(route, a + b), b)
  {
    LineGoesOn(a, b);
    FromNewlineLocal(a[1..], b);
  }

  lemma PathsLocal(fs: FileSystem, route: Route, a: seq<string>, b: seq<string>)
    requires a != [] && EndsLine(a) && a[0] != NL
    ensures Extends(ParseRoot(route, a), ParseRoot(route, a + b), b)
    ensures Extends(ParseUploadPath(fs, route, a), ParseUploadPath(fs, route, a + b), b)
  {
    LineGoesOn(a, b);
  }

  lemma FlagAndReturnLocal(route: Route, a: seq<string>, b: seq<string>)
    requires a != [] && EndsLine(a) && a[0] != NL
    ensures Extends(ParseAutoIndex(route, a), ParseAutoIndex(route, a + b), b)
    ensures Extends(ParseReturn(route, a), ParseReturn(route, a + b), b)
  {
    LineGoesOn(a, b);
    NewlineIsNoNumber();
  }

  lemma RouteDirectiveLocal(fs: FileSystem, route: Route, a: seq<string>, b: seq<string>)
    requires a != [] && EndsLine(a) && a[0] != NL
    ensures Extends(ParseRouteDirective(fs, route, a), ParseRouteDirective(fs, route, a + b), b)
  {
    assert (a + b)[0] == a[0];
    if a[0] == "allowed_methods" {
      MethodsLocal(route, a, b);
    } else if a[0] == "index" || a[0] == "cgi_extensions" {
      WordListsLocal(route, a, b);
    } else if a[0] == "root" || a[0] == "upload_path" {
      PathsLocal(fs, route, a, b);
    } else {
      FlagAndReturnLocal(route, a, b);
    }
  }

  ghost predicate MoveExtends(m: Move, n: Move, b: seq<string>) {
    match m
    case Next(s, rest) => EndsLine(rest) && n == Next(s, rest + b)
    case Reject => n.Reject?
    case Fault => n.Fault?
  }

  lemma LocationLocal(a: seq<string>, b: seq<string>)
    requires a != [] && EndsLine(a) && a[0] != NL
    ensures Extends(ParseLocation(NEW_ROUTE, a), ParseLocation(NEW_ROUTE, a + b), b)
  {
    LineGoesOn(a, b);
  }

  lemma InServerLocal(fs: FileSystem, s: MachineState, a: seq<string>, b: seq<string>)
    requires a != [] && EndsLine(a) && a[0] != NL && a[0] != "http" && a[0] != "server" && a[0] != "location"
        && s.level == SERVER
    ensures MoveExtends(Directive(fs, s, a), Directive(fs, s, a + b), b)
  {
    assert (a + b)[0] == a[0];
    if s.serverBlock.Some? {
      var server := s.servers[s.serverBlock.value];
      ServerDirectiveLocal(fs, server, a, b);
      UpdatedServerLocal(s, ParseServerDirective(fs, server, a), ParseServerDirective(fs, server, a + b), b);
    }
  }

  lemma InLocationLocal(fs: FileSystem, s: MachineState, a: seq<string>, b: seq<string>)
    requires a != [] && EndsLine(a) && a[0] != NL && a[0] != "http" && a[0] != "server" && a[0] != "location"
        && s.level == LOCATION
    ensures MoveExtends(Directive(fs, s, a), Directive(fs, s, a + b), b)
  {
    assert (a + b)[0] == a[0];
    if s.route.Some? {
      var route := s.routes[s.route.value];
      RouteDirectiveLocal(fs, route, a, b);
      UpdatedRouteLocal(s, ParseRouteDirective(fs, route, a), ParseRouteDirective(fs, route, a + b), b);
    }
  }

  lemma OuterLocal(fs: FileSystem, s: MachineState, a: seq<string>, b: seq<string>)
    requires a != [] && EndsLine(a) && (a[0] == "http" || a[0] == "server")
    ensures MoveExtends(Directive(fs, s, a), Directive(fs, s, a + b), b)
  {
    LineGoesOn(a, b);
  }

  lemma NewLocationLocal(fs: FileSystem, s: MachineState, a: seq<string>, b: seq<string>)
    requires a != [] && EndsLine(a) && a[0] == "location"
    ensures MoveExtends(Directive(fs, s, a), Directive(fs, s, a + b), b)
  {
    LocationLocal(a, b);
    assert (a + b)[0] == a[0];
    UpdatedRouteLocal(WithNewRoute(s), ParseLocation(NEW_ROUTE, a), ParseLocation(NEW_ROUTE, a + b), b);
  }

  lemma DirectiveLocal(fs: FileSystem, s: MachineState, a: seq<string>, b: seq<string>)
    requires a != [] && EndsLine(a) && a[0] != NL
    ensures MoveExtends(Directive(fs, s, a), Directive(fs, s, a + b), b)
  {
    if a[0] == "http" || a[0] == "server" {
      OuterLocal(fs, s, a, b);
    } else if a[0] == "location" {
      NewLocationLocal(fs, s, a, b);
    } else if s.level == SERVER {
      InServerLocal(fs, s, a, b);
    } else if s.level == LOCATION {
      InLocationLocal(fs, s, a, b);
    } else {
      assert (a + b)[0] == a[0];
    }
  }

  lemma UpdatedServerLocal(s: MachineState, p: Parsed<Server>, q: Parsed<Server>, b: seq<string>)
    requires s.serverBlock.Some?
    requires p.Taken? ==> p.value.routes == s.servers[s.serverBlock.value].routes
    requires q.Taken? ==> q.value.routes == s.servers[s.serverBlock.value].routes
    requires Extends(p, q, b)
    ensures MoveExtends(UpdatedServer(s, p), UpdatedServer(s, q), b)
  {
    if p.Taken? {
      assert (p.rest + b)[1..] == p.rest[1..] + b;
    }
  }

  lemma UpdatedRouteLocal(s: MachineState, p: Parsed<Route>, q: Parsed<Route>, b: seq<string>)
    requires s.route.Some? && Extends(p, q, b)
    ensures MoveExtends(UpdatedRoute(s, p), UpdatedRoute(s, q), b)
  {
    if p.Taken? {
      assert (p.rest + b)[1..] == p.rest[1..] + b;
    }
  }

  /** One pass over tokens that end a line stays within them, whatever follows. */
  lemma StepLocal(fs: FileSystem, s: MachineState, a: seq<string>, b: seq<string>)
    requires a != [] && EndsLine(a)
    ensures MoveExtends(Step(fs, s, a), Step(fs, s, a + b), b)
  {
    assert (a + b)[0] == a[0] && (a + b)[1..] == a[1..] + b;
    if a[0] == "#" {
      FromNewlineLocal(a, b);
      var rest := FromNewline(a);
      assert (rest + b)[1..] == rest[1..] + b;
    } else if a[0] != "{" && a[0] != "}" && a[0] != NL {
      DirectiveLocal(fs, s, a, b);
    }
  }

  // Running whole lines.

  datatype Progress = Done(state: MachineState) | Stopped(verdict: Verdict)

  /** The mapping loop until `tokens` are used up, without the check at the end of the file. */
  function Exec(fs: FileSystem, s: MachineState, tokens: seq<string>): (p: Progress)
    ensures p.Stopped? ==> !p.verdict.Accepted?
    decreases |tokens|
  {
    if tokens == [] then Done(s)
    else match Step(fs, s, tokens)
      case Next(s', rest) => Exec(fs, s', rest)
      case Reject => Stopped(Rejected)
      case Fault => Stopped(Faulted)
  }

  function Then(fs: FileSystem, p: Progress, tokens: seq<string>): Verdict {
    match p
    case Done(s) => Run(fs, s, tokens)
    case Stopped(v) => v
  }

  /** The loop may be cut at any line end. */
  lemma {:induction false} RunLines(fs: FileSystem, s: MachineState, a: seq<string>, b: seq<string>)
    requires EndsLine(a)
    ensures Run(fs, s, a + b) == Then(fs, Exec(fs, s, a), b)
    decreases |a|
  {
    if a == [] {
      assert a + b == b;
    } else {
      StepLocal(fs, s, a, b);
      if Step(fs, s, a).Next? {
        RunLines(fs, Step(fs, s, a).state, Step(fs, s, a).rest, b);
      }
    }
  }

  lemma {:induction false} ExecLines(fs: FileSystem, s: MachineState, a: seq<string>, b: seq<string>)
    requires EndsLine(a)
    ensures Exec(fs, s, a + b) == match Exec(fs, s, a) case Done(s') => Exec(fs, s', b) case Stopped(v) => Stopped(v)
    decreases |a|
  {
    if a == [] {
      assert a + b == b;
    } else {
      StepLocal(fs, s, a, b);
      if Step(fs, s, a).Next? {
        ExecLines(fs, Step(fs, s, a).state, Step(fs, s, a).rest, b);
      }
    }
  }

  /** Running a block is running its head, its body and its tail in turn. */
  lemma ExecBlock(fs: FileSystem, s: MachineState, head: seq<string>, s1: MachineState, body: seq<string>,
      s2: MachineState, tail: seq<string>, s3: MachineState)
    requires EndsLine(head) && EndsLine(body)
    requires Exec(fs, s, head) == Done(s1) && Exec(fs, s1, body) == Done(s2) && Exec(fs, s2, tail) == Done(s3)
    ensures Exec(fs, s, head + body + tail) == Done(s3)
  {
    ExecLines(fs, s1, body, tail);
    ExecLines(fs, s, head, body + tail);
    Associate(head, body, tail);
  }
}
