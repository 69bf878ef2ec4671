/** The configuration parser as it runs: a token deque popped in place, objects updated
    through pointers, and the loops of the mapping pass. */
module FileParserModel {
  import opened CppStrings
  import opened Numbers
  import opened Tokenizer
  import opened ConfigMachine
  import ConfigRoundTrip
  import Routing

  /** How a directive's parser ends: normally, by a mapping failure, or undefined. */
  datatype Ending = Fine | Throws | Faults

  /** What `mapTokens` delivers. */
  datatype Mapped = Ports(groups: seq<Routing.PortGroup>) | Failure | Crash

  function ParsedRoute(fs: FileSystem, route: Route, tokens: seq<string>): (p: Parsed<Route>)
    requires tokens != []
    ensures p.Taken? ==> 0 < |p.rest| <= |tokens|
  {
    if tokens[0] == "location" then ParseLocation(route, tokens) else ParseRouteDirective(fs, route, tokens)
  }

  lemma OuterKeywords(keyword: string)
    requires keyword in LEVELS && (LEVELS[keyword] == BASE || LEVELS[keyword] == HTTP)
    ensures keyword == "http" || keyword == "server"
    ensures keyword == "server" ==> keyword != "http"
  {
  }

  lemma ServerKeywords(keyword: string)
    requires keyword in LEVELS && LEVELS[keyword] == SERVER
    ensures keyword != "http" && keyword != "server"
  {
  }

  lemma LocationKeywords(keyword: string)
    requires keyword in LEVELS && LEVELS[keyword] == LOCATION
    ensures keyword != "http" && keyword != "server" && keyword != "location"
  {
  }

  lemma UpdatedAt<T>(before: seq<T>, after: seq<T>, id: nat)
    requires id < |before| == |after| && forall j :: 0 <= j < |before| && j != id ==> after[j] == before[j]
    ensures after == before[id := after[id]]
  {
  }

  /** A word moves from the line to the list. */
  lemma WordTaken(words: seq<string>, tokens: seq<string>)
    requires tokens != [] && tokens[0] != NL
    ensures words + [tokens[0]] + LineWords(tokens[1..]) == words + LineWords(tokens)
  {
  }

  class FileParser {
    var tokens: seq<string>
    var servers: seq<Server>
    var routes: seq<Route>
    var serverBlock: Option<nat>
    var route: Option<nat>
    var brackets: seq<char>
    var httpFlag: bool
    var level: int
    var stack: seq<nat>

    ghost function View(): RawState
      reads this
    {
      State(servers, routes, serverBlock, route, brackets, httpFlag, level, stack)
    }

    constructor ()
      ensures View() == INITIAL && tokens == []
    {
      tokens, servers, routes, brackets, stack := [], [], [], [], [];
      serverBlock, route := None, None;
      httpFlag, level := false, BASE;
    }

    /** The parser's outcome for the server at `id` is `p`. */
    twostate predicate ServerEnds(id: nat, p: Parsed<Server>, ending: Ending)
      requires id < |old(servers)|
      reads this
    {
      match p
      case Taken(v, rest) => ending == Fine && tokens == rest && servers == old(servers)[id := v]
      case Refused => ending == Throws
      case Undefined => ending == Faults
    }

    twostate predicate RouteEnds(id: nat, p: Parsed<Route>, ending: Ending)
      requires id < |old(routes)|
      reads this
    {
      match p
      case Taken(v, rest) => ending == Fine && tokens == rest && routes == old(routes)[id := v]
      case Refused => ending == Throws
      case Undefined => ending == Faults
    }

    method PopFront()
      requires tokens != []
      modifies this`tokens
      ensures tokens == old(tokens)[1..]
    {
      tokens := tokens[1..];
    }

    method OptionListen(id: nat) returns (ending: Ending)
      requires tokens != [] && id < |servers|
      modifies this`tokens, this`servers
      ensures ServerEnds(id, ParseListen(old(servers[id]), old(tokens)), ending)
    {
      if |tokens| < 2 {
        return Throws;
      }
      PopFront();
      if servers[id].port != PORT_UNSET {
        return Throws;
      }
      var argument := ListenArgument(tokens[0]);
      if argument.Some? {
        servers := servers[id := servers[id].(host := argument.value.0, port := argument.value.1)];
      } else {
        assert servers == servers[id := servers[id]];
      }
      return Fine;
    }

    method OptionClientMaxBodySize(id: nat) returns (ending: Ending)
      requires tokens != [] && id < |servers|
      modifies this`tokens, this`servers
      ensures ServerEnds(id, ParseMaxBodySize(old(servers[id]), old(tokens)), ending)
    {
      if |tokens| < 2 {
        return Throws;
      }
      PopFront();
      var size := StringToInt(tokens[0]);
      if size == -1 {
        return Throws;
      }
      servers := servers[id := servers[id].(maxBodySize := size % UINT32_RANGE)];
      return Fine;
    }

    method OptionErrorPage(fs: FileSystem, id: nat) returns (ending: Ending)
      requires tokens != [] && id < |servers|
      modifies this`tokens, this`servers
      ensures ServerEnds(id, ParseErrorPage(fs, old(servers[id]), old(tokens)), ending)
    {
      PopFront();
      if |tokens| < 2 {
        return Throws;
      }
      var code := StringToInt(tokens[0]);
      if code == -1 {
        return Throws;
      }
      PopFront();
      if tokens[0] in fs.files && code in servers[id].errorFiles {
        servers := servers[id := servers[id].(errorFiles := servers[id].errorFiles[code := fs.files[tokens[0]]])];
      } else {
        assert servers == servers[id := servers[id]];
      }
      return Fine;
    }

    method OptionServerName(id: nat) returns (ending: Ending)
      requires tokens != [] && id < |servers|
      modifies this`tokens, this`servers
      ensures ServerEnds(id, ParseServerName(old(servers[id]), old(tokens)), ending)
    {
      PopFront();
      servers := servers[id := servers[id].(names := [])];
      while tokens != [] && tokens[0] != NL
        invariant |servers| == old(|servers|) && forall j ::
            0 <= j < |servers| && j != id ==> servers[j] == old(servers)[j]
        invariant servers[id] == old(servers)[id].(names := servers[id].names)
        invariant servers[id].names + LineWords(tokens) == LineWords(old(tokens)[1..])
        invariant FromNewline(tokens) == FromNewline(old(tokens)[1..])
        decreases |tokens|
      {
        WordTaken(servers[id].names, tokens);
        servers := servers[id := servers[id].(names := servers[id].names + [tokens[0]])];
        PopFront();
      }
      if tokens == [] {
        return Throws;
      }
      assert servers[id].names + [] == servers[id].names;
      UpdatedAt(old(servers), servers, id);
      return Fine;
    }

    method OptionLocation(id: nat) returns (ending: Ending)
      requires tokens != [] && id < |routes|
      modifies this`tokens, this`routes
      ensures RouteEnds(id, ParseLocation(old(routes[id]), old(tokens)), ending)
    {
      if |tokens| < 2 {
        return Throws;
      }
      PopFront();
      routes := routes[id := routes[id].(baseUrl := tokens[0])];
      return Fine;
    }

    method OptionAllowedMethods(id: nat) returns (ending: Ending)
      requires tokens != [] && id < |routes|
      modifies this`tokens, this`routes
      ensures RouteEnds(id, ParseAllowedMethods(old(routes[id]), old(tokens)), ending)
    {
      var count := 0;
      PopFront();
      routes := routes[id := routes[id].(acceptedMethods := [])];
      while tokens != [] && !(tokens[0] == NL || count >= 3)
        invariant |routes| == old(|routes|) && count == |routes[id].acceptedMethods|
        invariant routes == old(routes)[id := old(routes[id]).(acceptedMethods := routes[id].acceptedMethods)]
        invariant TakeMethods(tokens, routes[id].acceptedMethods) == TakeMethods(old(tokens)[1..], [])
        decreases |tokens|
      {
        if tokens[0] !in DEFAULT_METHODS {
          return Throws;
        }
        routes := routes[id := routes[id].(acceptedMethods := routes[id].acceptedMethods + [tokens[0]])];
        PopFront();
        count := count + 1;
      }
      if tokens == [] {
        return Throws;
      }
      return Fine;
    }

    method OptionRoot(id: nat) returns (ending: Ending)
      requires tokens != [] && id < |routes|
      modifies this`tokens, this`routes
      ensures RouteEnds(id, ParseRoot(old(routes[id]), old(tokens)), ending)
    {
      PopFront();
      if tokens == [] || BelowHtml(tokens[0]).None? {
        return Faults;
      }
      routes := routes[id := routes[id].(fileSearchPath := BelowHtml(tokens[0]).value)];
      return Fine;
    }

    method OptionAutoIndex(id: nat) returns (ending: Ending)
      requires tokens != [] && id < |routes|
      modifies this`tokens, this`routes
      ensures RouteEnds(id, ParseAutoIndex(old(routes[id]), old(tokens)), ending)
    {
      PopFront();
      if tokens == [] {
        return Faults;
      }
      if tokens[0] != "on" && tokens[0] != "off" {
        return Throws;
      }
      routes := routes[id := routes[id].(autoIndex := tokens[0] == "on")];
      return Fine;
    }

    method OptionIndex(id: nat) returns (ending: Ending)
      requires tokens != [] && id < |routes|
      modifies this`tokens, this`routes
      ensures RouteEnds(id, ParseIndex(old(routes[id]), old(tokens)), ending)
    {
      PopFront();
      routes := routes[id := routes[id].(indexFiles := [])];
      while tokens != [] && tokens[0] != NL
        invariant |routes| == old(|routes|) && forall j :: 0 <= j < |routes| && j != id ==> routes[j] == old(routes)[j]
        invariant routes[id] == old(routes)[id].(indexFiles := routes[id].indexFiles)
        invariant routes[id].indexFiles + LineWords(tokens) == LineWords(old(tokens)[1..])
        invariant FromNewline(tokens) == FromNewline(old(tokens)[1..])
        decreases |tokens|
      {
        WordTaken(routes[id].indexFiles, tokens);
        routes := routes[id := routes[id].(indexFiles := routes[id].indexFiles + [tokens[0]])];
        PopFront();
      }
      if tokens == [] {
        return Throws;
      }
      assert routes[id].indexFiles + [] == routes[id].indexFiles;
      UpdatedAt(old(routes), routes, id);
      return Fine;
    }

    method OptionCgiExtension(id: nat) returns (ending: Ending)
      requires tokens != [] && id < |routes|
      modifies this`tokens, this`routes
      ensures RouteEnds(id, ParseCgiExtensions(old(routes[id]), old(tokens)), ending)
    {
      PopFront();
      while tokens != [] && tokens[0] != NL
        invariant |routes| == old(|routes|) && forall j :: 0 <= j < |routes| && j != id ==> routes[j] == old(routes)[j]
        invariant routes[id] == old(routes)[id].(cgiExtensions := routes[id].cgiExtensions)
        invariant routes[id].cgiExtensions + LineWords(tokens)
            == old(routes[id].cgiExtensions) + LineWords(old(tokens)[1..])
        invariant FromNewline(tokens) == FromNewline(old(tokens)[1..])
        decreases |tokens|
      {
        WordTaken(routes[id].cgiExtensions, tokens);
        routes := routes[id := routes[id].(cgiExtensions := routes[id].cgiExtensions + [tokens[0]])];
        PopFront();
      }
      if tokens == [] {
        return Throws;
      }
      assert routes[id].cgiExtensions + [] == routes[id].cgiExtensions;
      UpdatedAt(old(routes), routes, id);
      return Fine;
    }

    method OptionUploadPath(fs: FileSystem, id: nat) returns (ending: Ending)
      requires tokens != [] && id < |routes|
      modifies this`tokens, this`routes
      ensures RouteEnds(id, ParseUploadPath(fs, old(routes[id]), old(tokens)), ending)
    {
      PopFront();
      if tokens == [] || BelowHtml(tokens[0]).None? {
        return Faults;
      }
      var path := BelowHtml(tokens[0]).value;
      if path !in fs.directories {
        return Throws;
      }
      routes := routes[id := routes[id].(uploadPath := path)];
      return Fine;
    }

    method OptionReturn(id: nat) returns (ending: Ending)
      requires tokens != [] && id < |routes|
      modifies this`tokens, this`routes
      ensures RouteEnds(id, ParseReturn(old(routes[id]), old(tokens)), ending)
    {
      PopFront();
      if |tokens| < 2 {
        return Throws;
      }
      var code := StringToInt(tokens[0]);
      if code == -1 {
        return Throws;
      }
      PopFront();
      routes := routes[id := routes[id].(redirect := Some(Redirect(tokens[0], code)))];
      return Fine;
    }

    method ParseServerOption(fs: FileSystem, id: nat) returns (ending: Ending)
      requires tokens != [] && id < |servers|
      modifies this`tokens, this`servers
      ensures ServerEnds(id, ParseServerDirective(fs, old(servers[id]), old(tokens)), ending)
    {
      if tokens[0] == "listen" {
        ending := OptionListen(id);
      } else if tokens[0] == "client_max_body_size" {
        ending := OptionClientMaxBodySize(id);
      } else if tokens[0] == "error_page" {
        ending := OptionErrorPage(fs, id);
      } else {
        ending := OptionServerName(id);
      }
    }

    method ParseRouteOption(fs: FileSystem, id: nat) returns (ending: Ending)
      requires tokens != [] && id < |routes|
      modifies this`tokens, this`routes
      ensures RouteEnds(id, ParseRouteDirective(fs, old(routes[id]), old(tokens)), ending)
    {
      if tokens[0] == "allowed_methods" {
        ending := OptionAllowedMethods(id);
      } else if tokens[0] == "root" {
        ending := OptionRoot(id);
      } else if tokens[0] == "autoindex" {
        ending := OptionAutoIndex(id);
      } else if tokens[0] == "index" {
        ending := OptionIndex(id);
      } else if tokens[0] == "cgi_extensions" {
        ending := OptionCgiExtension(id);
      } else if tokens[0] == "upload_path" {
        ending := OptionUploadPath(fs, id);
      } else {
        ending := OptionReturn(id);
      }
    }

    method CreateServer()
      requires Sound(View())
      modifies this`serverBlock, this`servers
      ensures Sound(old(View())) && View() == WithNewServer(old(View()))
    {
      serverBlock := Some(|servers|);
      servers := servers + [NewServer()];
    }

    method CreateRoute()
      requires Sound(View())
      modifies this`route, this`routes
      ensures Sound(old(View())) && View() == WithNewRoute(old(View()))
    {
      route := Some(|routes|);
      routes := routes + [NEW_ROUTE];
    }

    /** A directive has ended as the machine's move says, up to the pop at the end of the pass. */
    twostate predicate Ends(m: Move, ending: Ending)
      reads this
    {
      match m
      case Next(s, rest) => ending == Fine && View() == s && tokens != [] && tokens[1..] == rest
      case Reject => ending == Throws
      case Fault => ending == Faults
    }

    /** The branch of the mapping loop for a directive. */
    method MapDirective(fs: FileSystem) returns (ending: Ending)
      requires tokens != [] && Sound(View())
      modifies this
      ensures ending == Fine ==> Sound(View())
      ensures Ends(Directive(fs, old(View()), old(tokens)), ending)
    {
      if tokens[0] !in LEVELS || level != LEVELS[tokens[0]] {
        return Throws;
      }
      if level == BASE || level == HTTP {
        ending := MapOuterDirective(fs);
      } else if level == SERVER {
        ending := MapServerDirective(fs);
      } else {
        LocationKeywords(tokens[0]);
        ending := UpdateRoute(fs);
      }
    }

    method MapOuterDirective(ghost fs: FileSystem) returns (ending: Ending)
      requires tokens != [] && Sound(View()) && (level == BASE || level == HTTP)
      requires tokens[0] in LEVELS && LEVELS[tokens[0]] == level
      modifies this`serverBlock, this`servers, this`httpFlag
      ensures ending == Fine ==> Sound(View())
      ensures Ends(Directive(fs, old(View()), old(tokens)), ending)
    {
      OuterKeywords(tokens[0]);
      if tokens[0] == "server" {
        if !httpFlag {
          return Throws;
        }
        CreateServer();
      } else {
        httpFlag := true;
      }
      ending := Fine;
    }

    method MapServerDirective(fs: FileSystem) returns (ending: Ending)
      requires tokens != [] && Sound(View()) && level == SERVER
      requires tokens[0] in LEVELS && LEVELS[tokens[0]] == level
      modifies this
      ensures ending == Fine ==> Sound(View())
      ensures Ends(Directive(fs, old(View()), old(tokens)), ending)
    {
      ServerKeywords(tokens[0]);
      if tokens[0] == "location" {
        CreateRoute();
        ending := UpdateRoute(fs);
      } else {
        ending := UpdateServer(fs);
      }
    }

    /** A directive applied to the current server. */
    method UpdateServer(fs: FileSystem) returns (ending: Ending)
      requires tokens != [] && Sound(View())
      modifies this`tokens, this`servers
      ensures ending == Fine ==> Sound(View())
      ensures if old(serverBlock).None? then ending == Faults
              else match UpdatedServer(old(View()),
                  ParseServerDirective(fs, old(servers)[old(serverBlock).value], old(tokens)))
              case Next(s, rest) => ending == Fine && View() == s && tokens != [] && tokens[1..] == rest
              case Reject => ending == Throws
              case Fault => ending == Faults
    {
      if serverBlock.None? {
        return Faults;
      }
      ending := ParseServerOption(fs, serverBlock.value);
    }

    /** A directive applied to the current route. */
    method UpdateRoute(fs: FileSystem) returns (ending: Ending)
      requires tokens != [] && Sound(View())
      requires tokens[0] == "location" ==> route.Some?
      modifies this`tokens, this`routes
      ensures ending == Fine ==> Sound(View())
      ensures if old(route).None? then ending == Faults
              else match UpdatedRoute(old(View()), ParsedRoute(fs, old(routes)[old(route).value], old(tokens)))
              case Next(s, rest) => ending == Fine && View() == s && tokens != [] && tokens[1..] == rest
              case Reject => ending == Throws
              case Fault => ending == Faults
    {
      if route.None? {
        return Faults;
      }
      if tokens[0] == "location" {
        ending := OptionLocation(route.value);
      } else {
        ending := ParseRouteOption(fs, route.value);
      }
    }

    /** The branch for a closing bracket. */
    method CloseBracket() returns (ending: Ending)
      requires tokens != [] && Sound(View())
      modifies this`servers, this`stack, this`brackets, this`level
      ensures ending == Fine ==> Sound(View())
      ensures match Close(old(View()), tokens)
              case Next(s, _) => ending == Fine && View() == s
              case Reject => ending == Throws
              case Fault => ending == Faults
    {
      if brackets == [] || brackets[|brackets| - 1] != '{' {
        return Throws;
      }
      if level == HTTP && stack == [] {
        return Throws;
      }
      if level == SERVER {
        if serverBlock.None? {
          return Faults;
        }
        if servers[serverBlock.value].routes == [] {
          return Throws;
        }
        stack := stack + [serverBlock.value];
      }
      if level == LOCATION {
        if serverBlock.None? || route.None? {
          return Faults;
        }
        var server := servers[serverBlock.value];
        servers := servers[serverBlock.value := server.(routes := server.routes + [route.value])];
      }
      brackets := brackets[..|brackets| - 1];
      level := level - 1;
      return Fine;
    }

    method SkipComment()
      modifies this`tokens
      ensures tokens == FromNewline(old(tokens))
    {
      while tokens != [] && tokens[0] != NL
        invariant FromNewline(tokens) == FromNewline(old(tokens))
        decreases |tokens|
      {
        PopFront();
      }
    }

    /** One pass of the mapping loop. */
    method MapToken(fs: FileSystem) returns (ending: Ending)
      requires tokens != [] && Sound(View())
      modifies this
      ensures ending == Fine ==> Sound(View())
      ensures match Step(fs, old(View()), old(tokens))
              case Next(s, rest) => ending == Fine && View() == s && tokens == rest
              case Reject => ending == Throws
              case Fault => ending == Faults
    {
      ending := Fine;
      if tokens[0] == "#" {
        SkipComment();
        if tokens == [] {
          return Faults;
        }
      } else if tokens[0] == "{" {
        brackets := brackets + [tokens[0][0]];
        level := level + 1;
      } else if tokens[0] == "}" {
        ending := CloseBracket();
        if ending != Fine {
          return;
        }
      } else if tokens[0] != NL {
        ending := MapDirective(fs);
        if ending != Fine {
          return;
        }
      }
      PopFront();
    }

    /** The mapping loop. */
    method MapTokens(fs: FileSystem) returns (ending: Ending)
      requires Sound(View())
      modifies this
      ensures ending == Fine ==> Sound(View())
      ensures match Run(fs, old(View()), old(tokens))
              case Accepted(s) => ending == Fine && View() == s
              case Rejected => ending == Throws
              case Faulted => ending == Faults
    {
      while tokens != []
        invariant Sound(View())
        invariant Run(fs, View(), tokens) == Run(fs, old(View()), old(tokens))
        decreases |tokens|
      {
        ending := MapToken(fs);
        if ending != Fine {
          return;
        }
      }
      return if brackets == [] then Fine else Throws;
    }
  }

  /** From the text of the configuration file to the port configurations. */
  method MapConfig(fs: FileSystem, configData: string) returns (mapped: Mapped)
    ensures match Compile(fs, configData)
            case Accepted(s) => mapped == Ports(Routing.Grouped([], ConfigRoundTrip.Trees(s)))
            case Rejected => mapped == Failure
            case Faulted => mapped == Crash
  {
    if configData == "" {
      return Failure;
    }
    var parser := new FileParser();
    parser.tokens := Tokenize(configData);
    var ending := parser.MapTokens(fs);
    if ending == Throws {
      return Failure;
    }
    if ending == Faults {
      return Crash;
    }
    var blocks := ConfigRoundTrip.Trees(State(parser.servers, parser.routes, parser.serverBlock, parser.route,
                                              parser.brackets, parser.httpFlag, parser.level, parser.stack));
    var groups, _ := Routing.GroupServerConfigs([], blocks);
    return Ports(groups);
  }
}
