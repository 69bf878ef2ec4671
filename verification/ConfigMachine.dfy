/** The configuration compiler as a machine over the token deque: one step for each pass of
    the mapping loop, one function for each directive's parser.

    Objects made with `new` live in two arenas and a pointer is an index into its arena, so
    that a pointer left over from an earlier block still names the same object. Faulted
    stands for undefined behaviour or an exception the caller does not expect: popping or
    reading an empty deque, a pointer that was never set, `at` beyond a string's end. */
module ConfigMachine {
  import opened CppStrings
  import opened Numbers
  import opened Tokenizer

  const BASE := 0
  const HTTP := 1
  const SERVER := 2
  const LOCATION := 3

  const PORT_UNSET := 0
  const DEFAULT_PORT := 8080
  const HTML: string := "html/"

  datatype Redirect = Redirect(url: string, statusCode: int)

  datatype Route = Route(
    baseUrl: string, acceptedMethods: seq<string>, redirect: Option<Redirect>, fileSearchPath: string,
    uploadPath: string, autoIndex: bool, indexFiles: seq<string>, cgiExtensions: seq<string>)

  /** `routes` holds pointers into the arena of routes. */
  datatype Server = Server(
    host: string, port: int, names: seq<string>, routes: seq<nat>, errorFiles: map<int, string>, maxBodySize: int)

  /** What the directives look up on disk: readable files and existing directories. */
  datatype FileSystem = FileSystem(files: map<string, string>, directories: set<string>)

  const DEFAULT_METHODS: seq<string> := ["GET", "POST", "DELETE"]

  const NEW_ROUTE: Route := Route("", DEFAULT_METHODS, None, HTML, HTML, false, ["index.html"], [])

  /** The status codes that have a page, and so may be given another one. */
  const KNOWN_CODES: set<int> :=
    set c | 100 <= c < 512 &&
            (c <= 103 || 200 <= c <= 208 || c == 226 || 300 <= c <= 305 || 307 <= c <= 308 || 400 <= c <= 418 ||
             421 <= c <= 426 || 428 <= c <= 429 || c == 431 || c == 451 || 500 <= c <= 508 || 510 <= c)

  function NewServer(): Server {
    Server("", PORT_UNSET, [""], [], map c | c in KNOWN_CODES :: "", 1)
  }

  // The directives' parsers. `tokens` starts with the directive's name.

  /** Taken leaves at least one token, which the mapping loop pops. */
  datatype Parsed<T> = Taken(value: T, rest: seq<string>) | Refused | Undefined

  /** The tokens before the first newline token. */
  function LineWords(tokens: seq<string>): seq<string> {
    if tokens == [] || tokens[0] == NL then [] else [tokens[0]] + LineWords(tokens[1..])
  }

  /** The tokens from the first newline token on. */
  function FromNewline(tokens: seq<string>): (rest: seq<string>)
    ensures |rest| <= |tokens|
    ensures rest != [] ==> rest[0] == NL
  {
    if tokens == [] || tokens[0] == NL then tokens else FromNewline(tokens[1..])
  }

  /** Address and port of a listen argument; None is the failure that is swallowed. */
  function ListenArgument(arg: string): (r: Option<(string, int)>)
    ensures r.Some? ==> 0 <= r.value.1 <= UINT16_MAX
  {
    if Count(arg, ':') == 0 then
      (match ExtractUint16(arg)
       case Some(port) => Some(("*", port))
       case None => Some((arg, DEFAULT_PORT)))
    else if Count(arg, ':') == 1 then
      (match ExtractUint16(Past(arg, ':'))
       case Some(port) => Some((Before(arg, ':'), port))
       case None => None)
    else None
  }

  function ParseListen(server: Server, tokens: seq<string>): Parsed<Server> {
    if |tokens| < 2 || server.port != PORT_UNSET then Refused
    else match ListenArgument(tokens[1])
      case Some(arg) => Taken(server.(host := arg.0, port := arg.1), tokens[1..])
      case None => Taken(server, tokens[1..])
  }

  function ParseMaxBodySize(server: Server, tokens: seq<string>): Parsed<Server> {
    if |tokens| < 2 || StringToInt(tokens[1]) == -1 then Refused
    else Taken(server.(maxBodySize := StringToInt(tokens[1]) % UINT32_RANGE), tokens[1..])
  }

  function WithErrorPage(fs: FileSystem, server: Server, code: int, file: string): Server {
    if file in fs.files && code in server.errorFiles
    then server.(errorFiles := server.errorFiles[code := fs.files[file]]) else server
  }

  function ParseErrorPage(fs: FileSystem, server: Server, tokens: seq<string>): Parsed<Server> {
    if |tokens| < 3 || StringToInt(tokens[1]) == -1 then Refused
    else Taken(WithErrorPage(fs, server, StringToInt(tokens[1]), tokens[2]), tokens[2..])
  }

  function ParseServerName(server: Server, tokens: seq<string>): Parsed<Server>
    requires tokens != []
  {
    var rest := FromNewline(tokens[1..]);
    if rest == [] then Refused else Taken(server.(names := LineWords(tokens[1..])), rest)
  }

  function ParseLocation(route: Route, tokens: seq<string>): Parsed<Route> {
    if |tokens| < 2 then Refused else Taken(route.(baseUrl := tokens[1]), tokens[1..])
  }

  /** At most three methods are taken; a fourth token on the line is left in front. */
  function TakeMethods(tokens: seq<string>, methods: seq<string>): Parsed<seq<string>>
    decreases |tokens|
  {
    if tokens == [] then Refused
    else if tokens[0] == NL || |methods| >= 3 then Taken(methods, tokens)
    else if tokens[0] !in DEFAULT_METHODS then Refused
    else TakeMethods(tokens[1..], methods + [tokens[0]])
  }

  function ParseAllowedMethods(route: Route, tokens: seq<string>): Parsed<Route>
    requires tokens != []
  {
    match TakeMethods(tokens[1..], [])
    case Taken(methods, rest) => Taken(route.(acceptedMethods := methods), rest)
    case Refused => Refused
    case Undefined => Undefined
  }

  /** A path below the html directory; None when reading past its end throws. */
  function BelowHtml(path: string): Option<string> {
    if path == "/" then Some(HTML)
    else if path == "" then None
    else if path[0] == '/' then Some(HTML + path[1..])
    else if path[0] == '.' then
      (if |path| < 2 then None else if path[1] == '/' then Some(HTML + path[2..]) else Some(HTML + path))
    else Some(HTML + path)
  }

  function ParseRoot(route: Route, tokens: seq<string>): Parsed<Route> {
    if |tokens| < 2 then Undefined
    else match BelowHtml(tokens[1])
      case Some(path) => Taken(route.(fileSearchPath := path), tokens[1..])
      case None => Undefined
  }

  function ParseAutoIndex(route: Route, tokens: seq<string>): Parsed<Route> {
    if |tokens| < 2 then Undefined
    else if tokens[1] != "on" && tokens[1] != "off" then Refused
    else Taken(route.(autoIndex := tokens[1] == "on"), tokens[1..])
  }

  function ParseIndex(route: Route, tokens: seq<string>): Parsed<Route>
    requires tokens != []
  {
    var rest := FromNewline(tokens[1..]);
    if rest == [] then Refused else Taken(route.(indexFiles := LineWords(tokens[1..])), rest)
  }

  function ParseCgiExtensions(route: Route, tokens: seq<string>): Parsed<Route>
    requires tokens != []
  {
    var rest := FromNewline(tokens[1..]);
    if rest == [] then Refused else Taken(route.(cgiExtensions := route.cgiExtensions + LineWords(tokens[1..])), rest)
  }

  function ParseUploadPath(fs: FileSystem, route: Route, tokens: seq<string>): Parsed<Route> {
    if |tokens| < 2 then Undefined
    else match BelowHtml(tokens[1])
      case Some(path) => if path in fs.directories then Taken(route.(uploadPath := path), tokens[1..]) else Refused
      case None => Undefined
  }

  function ParseReturn(route: Route, tokens: seq<string>): Parsed<Route> {
    if |tokens| < 3 || StringToInt(tokens[1]) == -1 then Refused
    else Taken(route.(redirect := Some(Redirect(tokens[2], StringToInt(tokens[1])))), tokens[2..])
  }

  /** The level at which each directive may stand. */
  const LEVELS: map<string, int> := map[
    "http" := BASE, "server" := HTTP,
    "client_max_body_size" := SERVER, "error_page" := SERVER, "listen" := SERVER, "server_name" := SERVER,
        "location" := SERVER,
    "allowed_methods" := LOCATION, "root" := LOCATION, "autoindex" := LOCATION, "index" := LOCATION,
    "cgi_extensions" := LOCATION, "upload_path" := LOCATION, "return" := LOCATION]

  function ParseServerDirective(fs: FileSystem, server: Server, tokens: seq<string>): (p: Parsed<Server>)
    requires tokens != []
    ensures p.Taken? ==> 0 < |p.rest| <= |tokens| && p.value.routes == server.routes
  {
    if tokens[0] == "listen" then ParseListen(server, tokens)
    else if tokens[0] == "client_max_body_size" then ParseMaxBodySize(server, tokens)
    else if tokens[0] == "error_page" then ParseErrorPage(fs, server, tokens)
    else ParseServerName(server, tokens)
  }

  lemma {:induction false} TakeMethodsLeavesToken(tokens: seq<string>, methods: seq<string>)
    ensures TakeMethods(tokens, methods).Taken? ==> 0 < |TakeMethods(tokens, methods).rest| <= |tokens|
    decreases |tokens|
  {
    if tokens != [] && tokens[0] in DEFAULT_METHODS {
      TakeMethodsLeavesToken(tokens[1..], methods + [tokens[0]]);
    }
  }

  function ParseRouteDirective(fs: FileSystem, route: Route, tokens: seq<string>): (p: Parsed<Route>)
    requires tokens != []
    ensures p.Taken? ==> 0 < |p.rest| <= |tokens|
  {
    TakeMethodsLeavesToken(tokens[1..], []);
    if tokens[0] == "allowed_methods" then ParseAllowedMethods(route, tokens)
    else if tokens[0] == "root" then ParseRoot(route, tokens)
    else if tokens[0] == "autoindex" then ParseAutoIndex(route, tokens)
    else if tokens[0] == "index" then ParseIndex(route, tokens)
    else if tokens[0] == "cgi_extensions" then ParseCgiExtensions(route, tokens)
    else if tokens[0] == "upload_path" then ParseUploadPath(fs, route, tokens)
    else ParseReturn(route, tokens)
  }

  // The machine.

  datatype RawState = State(
    servers: seq<Server>, routes: seq<Route>, serverBlock: Option<nat>, route: Option<nat>,
    brackets: seq<char>, httpFlag: bool, level: int, stack: seq<nat>)

  /** Every pointer that has been set names an object of its arena. */
  predicate Sound(s: RawState) {
    && (s.serverBlock.Some? ==> s.serverBlock.value < |s.servers|)
    && (s.route.Some? ==> s.route.value < |s.routes|)
    && (forall i :: 0 <= i < |s.stack| ==> s.stack[i] < |s.servers|)
    && (forall i, j :: 0 <= i < |s.servers| && 0 <= j < |s.servers[i].routes| ==> s.servers[i].routes[j] < |s.routes|)
  }

  type MachineState = s: RawState | Sound(s) witness State([], [], None, None, [], false, BASE, [])

  const INITIAL: MachineState := State([], [], None, None, [], false, BASE, [])

  datatype Move = Next(state: MachineState, rest: seq<string>) | Reject | Fault

  datatype Verdict = Accepted(state: MachineState) | Rejected | Faulted

  /** The pop at the end of a pass. */
  function Popped(s: MachineState, tokens: seq<string>): Move {
    if tokens == [] then Fault else Next(s, tokens[1..])
  }

  function Opened(s: MachineState): MachineState {
    s.(brackets := s.brackets + ['{'], level := s.level + 1)
  }

  function ClosedOnce(s: MachineState): MachineState
    requires s.brackets != []
  {
    s.(brackets := s.brackets[..|s.brackets| - 1], level := s.level - 1)
  }

  function AddedRoute(s: MachineState): MachineState
    requires s.serverBlock.Some? && s.route.Some?
  {
    var server := s.servers[s.serverBlock.value];
    s.(servers := s.servers[s.serverBlock.value := server.(routes := server.routes + [s.route.value])])
  }

  /** A closing bracket; `tokens` starts with it. */
  function Close(s: MachineState, tokens: seq<string>): Move
    requires tokens != []
  {
    if s.brackets == [] || s.brackets[|s.brackets| - 1] != '{' then Reject
    else if s.level == HTTP && s.stack == [] then Reject
    else if s.level == SERVER then
      if s.serverBlock.None? then Fault
      else if s.servers[s.serverBlock.value].routes == [] then Reject
      else Next(ClosedOnce(s.(stack := s.stack + [s.serverBlock.value])), tokens[1..])
    else if s.level == LOCATION then
      if s.serverBlock.None? || s.route.None? then Fault
      else Next(ClosedOnce(AddedRoute(s)), tokens[1..])
    else Next(ClosedOnce(s), tokens[1..])
  }

  function UpdatedServer(s: MachineState, p: Parsed<Server>): Move
    requires s.serverBlock.Some? && (p.Taken? ==> p.value.routes == s.servers[s.serverBlock.value].routes)
  {
    match p
    case Taken(server, rest) => Popped(s.(servers := s.servers[s.serverBlock.value := server]), rest)
    case Refused => Reject
    case Undefined => Fault
  }

  function UpdatedRoute(s: MachineState, p: Parsed<Route>): Move
    requires s.route.Some?
  {
    match p
    case Taken(route, rest) => Popped(s.(routes := s.routes[s.route.value := route]), rest)
    case Refused => Reject
    case Undefined => Fault
  }

  function WithNewServer(s: MachineState): MachineState {
    s.(servers := s.servers + [NewServer()], serverBlock := Some(|s.servers|))
  }

  function WithNewRoute(s: MachineState): MachineState {
    s.(routes := s.routes + [NEW_ROUTE], route := Some(|s.routes|))
  }

  function Directive(fs: FileSystem, s: MachineState, tokens: seq<string>): Move
    requires tokens != []
  {
    if tokens[0] !in LEVELS || LEVELS[tokens[0]] != s.level then Reject
    else if tokens[0] == "http" then Popped(s.(httpFlag := true), tokens)
    else if tokens[0] == "server" then
      if !s.httpFlag then Reject else Popped(WithNewServer(s), tokens)
    else if tokens[0] == "location" then UpdatedRoute(WithNewRoute(s), ParseLocation(NEW_ROUTE, tokens))
    else if s.level == SERVER then
      if s.serverBlock.None? then Fault
      else UpdatedServer(s, ParseServerDirective(fs, s.servers[s.serverBlock.value], tokens))
    else
      if s.route.None? then Fault
      else UpdatedRoute(s, ParseRouteDirective(fs, s.routes[s.route.value], tokens))
  }

  /** One pass of the mapping loop. */
  function Step(fs: FileSystem, s: MachineState, tokens: seq<string>): (m: Move)
    requires tokens != []
    ensures m.Next? ==> |m.rest| < |tokens|
  {
    if tokens[0] == "#" then Popped(s, FromNewline(tokens))
    else if tokens[0] == "{" then Next(Opened(s), tokens[1..])
    else if tokens[0] == "}" then Close(s, tokens)
    else if tokens[0] == NL then Next(s, tokens[1..])
    else Directive(fs, s, tokens)
  }

  /** The mapping loop; each pass consumes at least one token. */
  function Run(fs: FileSystem, s: MachineState, tokens: seq<string>): Verdict
    decreases |tokens|
  {
    if tokens == [] then (if s.brackets == [] then Accepted(s) else Rejected)
    else match Step(fs, s, tokens)
      case Next(s', rest) => Run(fs, s', rest)
      case Reject => Rejected
      case Fault => Faulted
  }

  /** From text to verdict; an empty text is refused before tokenizing. */
  function Compile(fs: FileSystem, text: string): Verdict {
    if text == "" then Rejected else Run(fs, INITIAL, Tokens(text))
  }
}
