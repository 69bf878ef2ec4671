/** Which configurations are refused, pass by pass. */
module ConfigRefusals {
  import opened CppStrings
  import opened Numbers
  import opened Tokenizer
  import opened ConfigMachine
  import opened ConfigSafety
  import opened ConfigFaults

  /** The words before the end of the line; there must be one. */
  predicate LineEndIn(tokens: seq<string>) {
    NL in tokens
  }

  /** A token that reads as an integer, -1 excepted, which stands for a failure. */
  predicate IsNumber(token: string) {
    ExtractInt(token, 10).Extracted? && ExtractInt(token, 10).value != -1
  }

  /** Known methods, at most `room`, up to position `k`, where the line ends or one more word
      stands. */
  ghost predicate MethodsEndAt(tokens: seq<string>, room: int, k: int) {
    && 0 <= k <= room && k < |tokens| && (k == room || tokens[k] == NL)
    && forall i :: 0 <= i < k ==> tokens[i] in DEFAULT_METHODS
  }

  ghost predicate MethodsStandIn(tokens: seq<string>, room: int) {
    exists k :: MethodsEndAt(tokens, room, k)
  }

  /** A directive of a server is refused: its argument is missing or no number, `listen` comes
      twice, or its line does not end. */
  predicate ServerArgumentRefused(server: Server, tokens: seq<string>)
    requires tokens != []
  {
    match tokens[0]
    case "listen" => |tokens| < 2 || server.port != PORT_UNSET
    case "client_max_body_size" => |tokens| < 2 || !IsNumber(tokens[1])
    case "error_page" => |tokens| < 3 || !IsNumber(tokens[1])
    case _ => !LineEndIn(tokens[1..])
  }

  /** The same for a directive of a location. A missing path or flag is not refused. */
  ghost predicate RouteArgumentRefused(fs: FileSystem, tokens: seq<string>)
    requires tokens != []
  {
    match tokens[0]
    case "allowed_methods" => !MethodsStandIn(tokens[1..], 3)
    case "root" => false
    case "autoindex" => |tokens| > 1 && tokens[1] != "on" && tokens[1] != "off"
    case "upload_path" => |tokens| > 1 && BelowHtml(tokens[1]).Some? && BelowHtml(tokens[1]).value !in fs.directories
    case "return" => |tokens| < 3 || !IsNumber(tokens[1])
    case _ => !LineEndIn(tokens[1..])
  }

  /** A closing bracket is refused: nothing is open, or the block lacks what it must hold. */
  predicate BracketRefused(s: MachineState) {
    || s.level <= 0
    || (s.level == HTTP && s.stack == [])
    || (s.level == SERVER && s.serverBlock.Some? && s.servers[s.serverBlock.value].routes == [])
  }

  /** A word is refused: it is no directive, or not one of this level, or its arguments are. */
  ghost predicate WordRefused(fs: FileSystem, s: MachineState, tokens: seq<string>)
    requires tokens != []
  {
    || tokens[0] !in LEVELS || LEVELS[tokens[0]] != s.level
    || (tokens[0] == "server" && !s.httpFlag)
    || (tokens[0] == "location" && |tokens| < 2)
    || (s.level == SERVER && tokens[0] != "location" && s.serverBlock.Some?
        && ServerArgumentRefused(s.servers[s.serverBlock.value], tokens))
    || (s.level == LOCATION && s.route.Some? && RouteArgumentRefused(fs, tokens))
  }

  ghost predicate RefusedAt(fs: FileSystem, s: MachineState, tokens: seq<string>)
    requires tokens != []
  {
    if tokens[0] == "}" then BracketRefused(s)
    else tokens[0] != "#" && tokens[0] != "{" && tokens[0] != NL && WordRefused(fs, s, tokens)
  }

  // That is what the machine refuses.

  lemma NumberExactly(token: string)
    ensures StringToInt(token) == -1 <==> !IsNumber(token)
  {
  }

  lemma {:induction false} MethodsExactly(tokens: seq<string>, taken: seq<string>)
    requires |taken| <= 3
    ensures TakeMethods(tokens, taken).Refused? <==> !MethodsStandIn(tokens, 3 - |taken|)
    decreases |tokens|
  {
    NoMethodIsNewline();
    if tokens == [] || tokens[0] == NL || |taken| == 3 || tokens[0] !in DEFAULT_METHODS {
      MethodsEndHere(tokens, 3 - |taken|);
    } else {
      MethodsExactly(tokens[1..], taken + [tokens[0]]);
      OneMethodMore(tokens, 3 - |taken|);
    }
  }

  lemma MethodsEndHere(tokens: seq<string>, room: int)
    requires room >= 0 && (tokens == [] || tokens[0] == NL || room == 0 || tokens[0] !in DEFAULT_METHODS)
    ensures MethodsStandIn(tokens, room) <==> tokens != [] && (tokens[0] == NL || room == 0)
  {
    NoMethodIsNewline();
    if tokens != [] && (tokens[0] == NL || room == 0) {
      assert MethodsEndAt(tokens, room, 0);
    }
  }

  lemma OneMethodMore(tokens: seq<string>, room: int)
    requires room > 0 && tokens != [] && tokens[0] != NL && tokens[0] in DEFAULT_METHODS
    ensures MethodsStandIn(tokens, room) <==> MethodsStandIn(tokens[1..], room - 1)
  {
    var rest := tokens[1..];
    assert tokens == [tokens[0]] + rest;
    var less := room - 1;
    if k :| MethodsEndAt(rest, less, k) {
      assert MethodsEndAt(tokens, room, k + 1);
    }
    if k :| MethodsEndAt(tokens, room, k) {
      assert MethodsEndAt(rest, less, k - 1);
    }
  }

  lemma NoMethodIsNewline()
    ensures NL !in DEFAULT_METHODS
  {
    assert "GET"[0] != NL[0] && "POST"[0] != NL[0] && "DELETE"[0] != NL[0];
  }

  lemma ServerArgumentExactly(fs: FileSystem, server: Server, tokens: seq<string>)
    requires tokens != [] && tokens[0] in LEVELS && LEVELS[tokens[0]] == SERVER && tokens[0] != "location"
    ensures ParseServerDirective(fs, server, tokens).Refused? <==> ServerArgumentRefused(server, tokens)
  {
    NoNewlineLeft(tokens[1..]);
    if |tokens| > 1 {
      NumberExactly(tokens[1]);
    }
  }

  lemma MethodsRefused(fs: FileSystem, route: Route, tokens: seq<string>)
    requires tokens != [] && tokens[0] == "allowed_methods"
    ensures ParseRouteDirective(fs, route, tokens).Refused? <==> !MethodsStandIn(tokens[1..], 3)
  {
    MethodsExactly(tokens[1..], []);
    assert ParseRouteDirective(fs, route, tokens) == ParseAllowedMethods(route, tokens);
  }

  lemma WordsRefused(fs: FileSystem, route: Route, tokens: seq<string>)
    requires tokens != [] && (tokens[0] == "index" || tokens[0] == "cgi_extensions")
    ensures ParseRouteDirective(fs, route, tokens).Refused? <==> !LineEndIn(tokens[1..])
  {
    NoNewlineLeft(tokens[1..]);
  }

  lemma ArgumentRefused(fs: FileSystem, route: Route, tokens: seq<string>)
    requires tokens != [] && tokens[0] in {"root", "autoindex", "upload_path", "return"}
    ensures ParseRouteDirective(fs, route, tokens).Refused? <==> RouteArgumentRefused(fs, tokens)
  {
    if |tokens| > 1 {
      NumberExactly(tokens[1]);
    }
  }

  lemma RouteArgumentExactly(fs: FileSystem, route: Route, tokens: seq<string>)
    requires tokens != [] && tokens[0] in LEVELS && LEVELS[tokens[0]] == LOCATION
    ensures ParseRouteDirective(fs, route, tokens).Refused? <==> RouteArgumentRefused(fs, tokens)
  {
    if tokens[0] == "allowed_methods" {
      MethodsRefused(fs, route, tokens);
    } else if tokens[0] == "index" || tokens[0] == "cgi_extensions" {
      WordsRefused(fs, route, tokens);
    } else {
      ArgumentRefused(fs, route, tokens);
    }
  }

  lemma CloseRefuses(s: MachineState, tokens: seq<string>)
    requires Nested(s) && tokens != []
    ensures Close(s, tokens) == Reject <==> BracketRefused(s)
  {
  }

  lemma WordRefuses(fs: FileSystem, s: MachineState, tokens: seq<string>)
    requires tokens != []
    ensures Directive(fs, s, tokens) == Reject <==> WordRefused(fs, s, tokens)
  {
    if tokens[0] in LEVELS && LEVELS[tokens[0]] == s.level {
      if s.level == SERVER && tokens[0] != "location" && s.serverBlock.Some? {
        ServerArgumentExactly(fs, s.servers[s.serverBlock.value], tokens);
      } else if s.level == LOCATION && s.route.Some? {
        RouteArgumentExactly(fs, s.routes[s.route.value], tokens);
      }
    }
  }

  /** A pass refuses in exactly these cases. */
  lemma StepRefuses(fs: FileSystem, s: MachineState, tokens: seq<string>)
    requires Nested(s) && tokens != []
    ensures Step(fs, s, tokens) == Reject <==> RefusedAt(fs, s, tokens)
  {
    CloseRefuses(s, tokens);
    WordRefuses(fs, s, tokens);
  }

  /** After `n` passes the machine stands where it refuses, or at the end with an open bracket. */
  ghost predicate RefusedAfter(fs: FileSystem, s: MachineState, tokens: seq<string>, n: nat) {
    var h := Head(fs, s, tokens, n);
    && h.Some?
    && if h.value.1 == [] then h.value.0.level > 0 else RefusedAt(fs, h.value.0, h.value.1)
  }

  lemma RefusedAfterFirst(fs: FileSystem, s: MachineState, tokens: seq<string>)
    requires tokens != []
    ensures (exists n: nat :: RefusedAfter(fs, s, tokens, n)) <==>
              || RefusedAt(fs, s, tokens)
              || (Step(fs, s, tokens).Next? &&
                  exists n: nat :: RefusedAfter(fs, Step(fs, s, tokens).state, Step(fs, s, tokens).rest, n))
  {
    if RefusedAt(fs, s, tokens) {
      assert RefusedAfter(fs, s, tokens, 0);
    }
    if Step(fs, s, tokens).Next? {
      var s', rest := Step(fs, s, tokens).state, Step(fs, s, tokens).rest;
      if n: nat :| RefusedAfter(fs, s', rest, n) {
        assert RefusedAfter(fs, s, tokens, n + 1);
      }
    }
    if n: nat :| RefusedAfter(fs, s, tokens, n) && n > 0 {
      assert RefusedAfter(fs, Step(fs, s, tokens).state, Step(fs, s, tokens).rest, n - 1);
    }
  }

  lemma {:induction false} RunRefuses(fs: FileSystem, s: MachineState, tokens: seq<string>)
    requires Nested(s)
    ensures Run(fs, s, tokens) == Rejected <==> exists n: nat :: RefusedAfter(fs, s, tokens, n)
    decreases |tokens|
  {
    if tokens == [] {
      EndRefuses(fs, s);
    } else {
      StepRefuses(fs, s, tokens);
      RefusedAfterFirst(fs, s, tokens);
      if Step(fs, s, tokens).Next? {
        StepKeepsNested(fs, s, tokens);
        RunRefuses(fs, Step(fs, s, tokens).state, Step(fs, s, tokens).rest);
      }
    }
  }

  lemma EndRefuses(fs: FileSystem, s: MachineState)
    requires Nested(s)
    ensures (exists n: nat :: RefusedAfter(fs, s, [], n)) <==> s.brackets != []
  {
    if s.brackets != [] {
      assert RefusedAfter(fs, s, [], 0);
    }
  }

  /** A configuration is refused exactly when it is empty, when some pass refuses, or when a
      bracket is open at its end. */
  lemma RefusalsExactly(fs: FileSystem, text: string)
    ensures Compile(fs, text) == Rejected <==>
              text == "" || exists n: nat :: RefusedAfter(fs, INITIAL, Tokens(text), n)
  {
    RunRefuses(fs, INITIAL, Tokens(text));
  }

  // Constants.

  /** The codes of the table, one by one. */
  lemma KnownCodes(c: int)
    ensures c in KNOWN_CODES <==>
              || c in {100, 101, 102, 103}
              || c in {200, 201, 202, 203, 204, 205, 206, 207, 208, 226}
              || c in {300, 301, 302, 303, 304, 305, 307, 308}
              || c in {400, 401, 402, 403, 404, 405, 406, 407, 408, 409, 410, 411, 412, 413, 414, 415, 416, 417, 418}
              || c in {421, 422, 423, 424, 425, 426, 428, 429, 431, 451}
              || c in {500, 501, 502, 503, 504, 505, 506, 507, 508, 510, 511}
  {
  }
}
