/** What holds at every loop head of the mapping loop, for every token stream. */
module ConfigSafety {
  import opened CppStrings
  import opened Tokenizer
  import opened ConfigMachine

  /** The bracket stack holds one `{` for each open level, and every server that was pushed
      has a route. */
  ghost predicate Nested(s: MachineState) {
    && s.level == |s.brackets|
    && (forall i :: 0 <= i < |s.brackets| ==> s.brackets[i] == '{')
    && (forall i :: 0 <= i < |s.stack| ==> s.servers[s.stack[i]].routes != [])
  }

  lemma CloseKeepsNested(s: MachineState, tokens: seq<string>)
    requires Nested(s) && tokens != []
    ensures Close(s, tokens).Next? ==>
              Nested(Close(s, tokens).state) && Close(s, tokens).state.level == s.level - 1 && s.level > 0
  {
  }

  lemma DirectiveKeepsNested(fs: FileSystem, s: MachineState, tokens: seq<string>)
    requires Nested(s) && tokens != []
    ensures Directive(fs, s, tokens).Next?
        ==> Nested(Directive(fs, s, tokens).state) && Directive(fs, s, tokens).state.level == s.level
  {
    if s.level == SERVER && s.serverBlock.Some? {
      var p := ParseServerDirective(fs, s.servers[s.serverBlock.value], tokens);
      assert p.Taken? ==> p.value.routes == s.servers[s.serverBlock.value].routes;
    }
  }

  lemma StepKeepsNested(fs: FileSystem, s: MachineState, tokens: seq<string>)
    requires Nested(s) && tokens != []
    ensures Step(fs, s, tokens).Next? ==> Nested(Step(fs, s, tokens).state)
  {
    CloseKeepsNested(s, tokens);
    DirectiveKeepsNested(fs, s, tokens);
  }

  /** The machine after `n` passes; None when it has stopped. */
  function Head(fs: FileSystem, s: MachineState, tokens: seq<string>, n: nat): Option<(MachineState, seq<string>)>
    decreases n
  {
    if n == 0 then Some((s, tokens))
    else if tokens == [] then None
    else match Step(fs, s, tokens)
      case Next(s', rest) => Head(fs, s', rest, n - 1)
      case _ => None
  }

  /** At every loop head of every run the brackets match the level, which is never negative,
      and as many tokens as passes at least have been consumed. */
  lemma {:induction false} EveryHeadIsNested(fs: FileSystem, s: MachineState, tokens: seq<string>, n: nat)
    requires Nested(s)
    ensures var h := Head(fs, s, tokens, n);
            h.Some? ==> Nested(h.value.0) && h.value.0.level >= 0 && |h.value.1| + n <= |tokens|
    decreases n
  {
    if n > 0 && tokens != [] && Step(fs, s, tokens).Next? {
      StepKeepsNested(fs, s, tokens);
      EveryHeadIsNested(fs, Step(fs, s, tokens).state, Step(fs, s, tokens).rest, n - 1);
    }
  }

  /** The brackets the machine acts on, in order; brackets inside a comment or among a
      directive's words are not seen. */
  function BracketsSeen(fs: FileSystem, s: MachineState, tokens: seq<string>): seq<char>
    decreases |tokens|
  {
    if tokens == [] then []
    else match Step(fs, s, tokens)
      case Next(s', rest) =>
        (if tokens[0] == "{" then ['{'] else if tokens[0] == "}" then ['}'] else []) + BracketsSeen(fs, s', rest)
      case _ => []
  }

  predicate Balanced(brackets: seq<char>, depth: nat) {
    if brackets == [] then depth == 0
    else if brackets[0] == '{' then Balanced(brackets[1..], depth + 1)
    else depth > 0 && Balanced(brackets[1..], depth - 1)
  }

  /** One bracket moves the level by one, and everything else leaves it. */
  lemma StepMovesLevel(fs: FileSystem, s: MachineState, tokens: seq<string>)
    requires Nested(s) && tokens != [] && Step(fs, s, tokens).Next?
    ensures Step(fs, s, tokens).state.level
        == s.level + (if tokens[0] == "{" then 1 else if tokens[0] == "}" then -1 else 0)
  {
    CloseKeepsNested(s, tokens);
    DirectiveKeepsNested(fs, s, tokens);
  }

  lemma BalancedStep(more: seq<char>, depth: nat, next: int, token: string)
    requires next == depth + (if token == "{" then 1 else if token == "}" then -1 else 0)
    requires next >= 0 && Balanced(more, next)
    ensures Balanced((if token == "{" then ['{'] else if token == "}" then ['}'] else []) + more, depth)
  {
    assert (['{'] + more)[1..] == more && (['}'] + more)[1..] == more;
    assert [] + more == more;
  }

  lemma {:induction false} AcceptedRunsBalance(fs: FileSystem, s: MachineState, tokens: seq<string>)
    requires Nested(s) && Run(fs, s, tokens).Accepted?
    ensures Balanced(BracketsSeen(fs, s, tokens), s.level)
    ensures Nested(Run(fs, s, tokens).state) && Run(fs, s, tokens).state.level == BASE
    decreases |tokens|
  {
    if tokens != [] {
      var s', rest := Step(fs, s, tokens).state, Step(fs, s, tokens).rest;
      StepKeepsNested(fs, s, tokens);
      StepMovesLevel(fs, s, tokens);
      AcceptedRunsBalance(fs, s', rest);
      BalancedStep(BracketsSeen(fs, s', rest), s.level, s'.level, tokens[0]);
    }
  }

  /** Acceptance of a configuration means that the brackets the machine saw balance, that it
      ended outside every block, and that each server it delivers has a route. */
  lemma AcceptanceIsSafe(fs: FileSystem, text: string)
    requires Compile(fs, text).Accepted?
    ensures Balanced(BracketsSeen(fs, INITIAL, Tokens(text)), 0)
    ensures Nested(Compile(fs, text).state) && Compile(fs, text).state.level == BASE
  {
    AcceptedRunsBalance(fs, INITIAL, Tokens(text));
  }
  // The status codes of a server.

  /** Every server has an entry for each known status code and for no other. */
  ghost predicate Whole(s: MachineState) {
    forall i :: 0 <= i < |s.servers| ==> s.servers[i].errorFiles.Keys == KNOWN_CODES
  }

  lemma DirectiveKeepsCodes(fs: FileSystem, server: Server, tokens: seq<string>)
    requires tokens != [] && ParseServerDirective(fs, server, tokens).Taken?
    ensures ParseServerDirective(fs, server, tokens).value.errorFiles.Keys == server.errorFiles.Keys
  {
  }

  lemma StepKeepsWhole(fs: FileSystem, s: MachineState, tokens: seq<string>)
    requires Whole(s) && tokens != []
    ensures Step(fs, s, tokens).Next? ==> Whole(Step(fs, s, tokens).state)
  {
    if tokens[0] == "}" {
      CloseKeepsWhole(s, tokens);
    } else if tokens[0] != "#" && tokens[0] != "{" && tokens[0] != NL {
      DirectiveKeepsWhole(fs, s, tokens);
    }
  }

  lemma CloseKeepsWhole(s: MachineState, tokens: seq<string>)
    requires Whole(s) && tokens != []
    ensures Close(s, tokens).Next? ==> Whole(Close(s, tokens).state)
  {
  }

  lemma DirectiveKeepsWhole(fs: FileSystem, s: MachineState, tokens: seq<string>)
    requires Whole(s) && tokens != []
    ensures Directive(fs, s, tokens).Next? ==> Whole(Directive(fs, s, tokens).state)
  {
    if s.level == SERVER && s.serverBlock.Some? {
      var server := s.servers[s.serverBlock.value];
      if ParseServerDirective(fs, server, tokens).Taken? {
        DirectiveKeepsCodes(fs, server, tokens);
      }
    }
  }

  lemma {:induction false} RunKeepsWhole(fs: FileSystem, s: MachineState, tokens: seq<string>)
    requires Whole(s) && Run(fs, s, tokens).Accepted?
    ensures Whole(Run(fs, s, tokens).state)
    decreases |tokens|
  {
    if tokens != [] {
      StepKeepsWhole(fs, s, tokens);
      RunKeepsWhole(fs, Step(fs, s, tokens).state, Step(fs, s, tokens).rest);
    }
  }

  /** Configuration replaces the pages of status codes but never adds or loses a code. */
  lemma AcceptedTablesAreWhole(fs: FileSystem, text: string)
    requires Compile(fs, text).Accepted?
    ensures Whole(Compile(fs, text).state)
  {
    RunKeepsWhole(fs, INITIAL, Tokens(text));
  }
  // The paths of a route.

  predicate BelowRoot(path: string) {
    |path| >= 5 && path[..5] == "html/"
  }

  /** Files are looked for and uploads are put below "html/" only. */
  ghost predicate Placed(s: MachineState) {
    forall i :: 0 <= i < |s.routes| ==> BelowRoot(s.routes[i].fileSearchPath) && BelowRoot(s.routes[i].uploadPath)
  }

  lemma RouteStaysPlaced(fs: FileSystem, route: Route, tokens: seq<string>)
    requires tokens != [] && BelowRoot(route.fileSearchPath) && BelowRoot(route.uploadPath)
    requires ParseRouteDirective(fs, route, tokens).Taken?
    ensures var r := ParseRouteDirective(fs, route, tokens).value;
            BelowRoot(r.fileSearchPath) && BelowRoot(r.uploadPath)
  {
  }

  lemma StepKeepsPlaced(fs: FileSystem, s: MachineState, tokens: seq<string>)
    requires Placed(s) && tokens != []
    ensures Step(fs, s, tokens).Next? ==> Placed(Step(fs, s, tokens).state)
  {
    if tokens[0] == "}" {
      CloseKeepsPlaced(s, tokens);
    } else if tokens[0] != "#" && tokens[0] != "{" && tokens[0] != NL {
      DirectiveKeepsPlaced(fs, s, tokens);
    }
  }

  lemma CloseKeepsPlaced(s: MachineState, tokens: seq<string>)
    requires Placed(s) && tokens != []
    ensures Close(s, tokens).Next? ==> Placed(Close(s, tokens).state)
  {
  }

  lemma UpdatedStaysPlaced(s: MachineState, p: Parsed<Route>)
    requires Placed(s) && s.route.Some?
    requires p.Taken? ==> BelowRoot(p.value.fileSearchPath) && BelowRoot(p.value.uploadPath)
    ensures UpdatedRoute(s, p).Next? ==> Placed(UpdatedRoute(s, p).state)
  {
  }

  lemma NewRouteIsPlaced(s: MachineState, tokens: seq<string>)
    requires Placed(s)
    ensures Placed(WithNewRoute(s))
    ensures ParseLocation(NEW_ROUTE, tokens).Taken? ==>
              var r := ParseLocation(NEW_ROUTE, tokens).value;
              BelowRoot(r.fileSearchPath) && BelowRoot(r.uploadPath)
  {
  }

  lemma DirectiveKeepsPlaced(fs: FileSystem, s: MachineState, tokens: seq<string>)
    requires Placed(s) && tokens != []
    ensures Directive(fs, s, tokens).Next? ==> Placed(Directive(fs, s, tokens).state)
  {
    if tokens[0] == "location" {
      NewRouteIsPlaced(s, tokens);
      UpdatedStaysPlaced(WithNewRoute(s), ParseLocation(NEW_ROUTE, tokens));
    } else if s.level == LOCATION && s.route.Some? {
      var p := ParseRouteDirective(fs, s.routes[s.route.value], tokens);
      if p.Taken? {
        RouteStaysPlaced(fs, s.routes[s.route.value], tokens);
      }
      UpdatedStaysPlaced(s, p);
    }
  }

  lemma {:induction false} RunKeepsPlaced(fs: FileSystem, s: MachineState, tokens: seq<string>)
    requires Placed(s) && Run(fs, s, tokens).Accepted?
    ensures Placed(Run(fs, s, tokens).state)
    decreases |tokens|
  {
    if tokens != [] {
      StepKeepsPlaced(fs, s, tokens);
      RunKeepsPlaced(fs, Step(fs, s, tokens).state, Step(fs, s, tokens).rest);
    }
  }

  /** In every accepted configuration every route searches and uploads below "html/". */
  lemma AcceptedRoutesArePlaced(fs: FileSystem, text: string)
    requires Compile(fs, text).Accepted?
    ensures Placed(Compile(fs, text).state)
  {
    RunKeepsPlaced(fs, INITIAL, Tokens(text));
  }
}
