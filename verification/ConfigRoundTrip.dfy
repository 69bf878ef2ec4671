/** Printing a configuration tree and compiling the text gives the tree's meaning back. */
module ConfigRoundTrip {
  import opened CppStrings
  import opened Numbers
  import opened Tokenizer
  import opened ConfigMachine
  import opened ConfigLines

  // Configuration trees.

  datatype RouteDirective =
    | AllowedMethods(methods: seq<string>)
    | Root(path: string)
    | AutoIndex(on: bool)
    | Index(files: seq<string>)
    | CgiExtensions(extensions: seq<string>)
    | UploadPath(directory: string)
    | Return(code: nat, url: string)

  /** The three ways to write a listen argument. */
  datatype Address = HostAndPort(host: string, port: nat) | PortOnly(port: nat) | HostOnly(host: string)

  datatype ServerDirective =
    | Listen(address: Address)
    | ServerName(names: seq<string>)
    | MaxBodySize(size: nat)
    | ErrorPage(code: nat, file: string)
    | Location(url: string, directives: seq<RouteDirective>)

  datatype ServerBlock = ServerBlock(directives: seq<ServerDirective>)

  ghost predicate AllWords(words: seq<string>) {
    forall i :: 0 <= i < |words| ==> IsWord(words[i])
  }

  ghost predicate WellFormedRoute(fs: FileSystem, d: RouteDirective) {
    match d
    case AllowedMethods(methods) => |methods| <= 3 && forall i :: 0 <= i < |methods| ==> methods[i] in DEFAULT_METHODS
    case Root(path) => IsWord(path) && path != "."
    case AutoIndex(_) => true
    case Index(files) => AllWords(files)
    case CgiExtensions(extensions) => AllWords(extensions)
    case UploadPath(directory) =>
      IsWord(directory) && directory != "." && PlacedBelowHtml(directory) in fs.directories
    case Return(code, url) => code <= INT_MAX && IsWord(url)
  }

  /** The argument begins, behind white space and a sign, like a port number. */
  predicate StartsWithPort(arg: string) {
    var text := SkipSpaces(arg);
    var unsigned := if text != "" && (text[0] == '+' || text[0] == '-') then text[1..] else text;
    unsigned != "" && IsDigit(unsigned[0], 10) && Value(DigitPrefix(unsigned, 10), 10) <= UINT16_MAX
  }

  ghost predicate WellFormedAddress(a: Address) {
    match a
    case HostAndPort(host, port) => port <= UINT16_MAX && ':' !in host && (host == "" || IsWord(host))
    case PortOnly(port) => port <= UINT16_MAX
    case HostOnly(host) => IsWord(host) && ':' !in host && !StartsWithPort(host)
  }

  ghost predicate WellFormedServer(fs: FileSystem, d: ServerDirective) {
    match d
    case Listen(address) => WellFormedAddress(address)
    case ServerName(names) => AllWords(names)
    case MaxBodySize(size) => size <= INT_MAX
    case ErrorPage(code, file) => code <= INT_MAX && IsWord(file)
    case Location(url, directives) => IsWord(url) && forall i ::
        0 <= i < |directives| ==> WellFormedRoute(fs, directives[i])
  }

  function ListenPort(a: Address): int {
    if a.HostOnly? then DEFAULT_PORT else a.port
  }

  function ListenHost(a: Address): string {
    if a.PortOnly? then "*" else a.host
  }

  function AddressText(a: Address): string {
    match a
    case HostAndPort(host, port) => host + ":" + Decimal(port)
    case PortOnly(port) => Decimal(port)
    case HostOnly(host) => host
  }

  /** No listen directive follows one that has set a port. */
  ghost predicate ListensOnce(ds: seq<ServerDirective>, port: int) {
    ds != [] ==>
      && (ds[0].Listen? ==> port == PORT_UNSET)
      && ListensOnce(ds[1..], if ds[0].Listen? then ListenPort(ds[0].address) else port)
  }

  ghost predicate WellFormed(fs: FileSystem, block: ServerBlock) {
    && (forall i :: 0 <= i < |block.directives| ==> WellFormedServer(fs, block.directives[i]))
    && ListensOnce(block.directives, PORT_UNSET)
    && exists i :: 0 <= i < |block.directives| && block.directives[i].Location?
  }

  // What a tree means.

  /** Where a path of a directive leads: always below "html/". */
  function PlacedBelowHtml(path: string): string
    requires path != ""
  {
    if path == "/" then "html/"
    else if path[0] == '/' then "html/" + path[1..]
    else if |path| > 1 && path[..2] == "./" then "html/" + path[2..]
    else "html/" + path
  }

  function RouteWith(r: Route, d: RouteDirective): Route {
    match d
    case AllowedMethods(methods) => r.(acceptedMethods := methods)
    case Root(path) => if path == "" then r else r.(fileSearchPath := PlacedBelowHtml(path))
    case AutoIndex(on) => r.(autoIndex := on)
    case Index(files) => r.(indexFiles := files)
    case CgiExtensions(extensions) => r.(cgiExtensions := r.cgiExtensions + extensions)
    case UploadPath(directory) => if directory == "" then r else r.(uploadPath := PlacedBelowHtml(directory))
    case Return(code, url) => r.(redirect := Some(Redirect(url, code)))
  }

  function RouteMeaning(r: Route, ds: seq<RouteDirective>): Route
    decreases |ds|
  {
    if ds == [] then r else RouteMeaning(RouteWith(r, ds[0]), ds[1..])
  }

  /** A server with its routes inside it. */
  datatype ServerTree = ServerTree(
    host: string, port: int, names: seq<string>, routes: seq<Route>, errorFiles: map<int, string>, maxBodySize: int)

  function ServerWith(fs: FileSystem, t: ServerTree, d: ServerDirective): ServerTree {
    match d
    case Listen(address) => t.(host := ListenHost(address), port := ListenPort(address))
    case ServerName(names) => t.(names := names)
    case MaxBodySize(size) => t.(maxBodySize := size)
    case ErrorPage(code, file) =>
      if file in fs.files && code in t.errorFiles then t.(errorFiles := t.errorFiles[code := fs.files[file]]) else t
    case Location(url, ds) => t.(routes := t.routes + [RouteMeaning(NEW_ROUTE.(baseUrl := url), ds)])
  }

  function ServerMeaning(fs: FileSystem, t: ServerTree, ds: seq<ServerDirective>): ServerTree
    decreases |ds|
  {
    if ds == [] then t else ServerMeaning(fs, ServerWith(fs, t, ds[0]), ds[1..])
  }

  function NewTree(): ServerTree {
    ServerTree("", PORT_UNSET, [""], [], NewServer().errorFiles, 1)
  }

  function Meanings(fs: FileSystem, blocks: seq<ServerBlock>): (trees: seq<ServerTree>)
    ensures |trees| == |blocks|
  {
    seq(|blocks|, i requires 0 <= i < |blocks| => ServerMeaning(fs, NewTree(), blocks[i].directives))
  }

  // Printing.

  function RouteTokens(d: RouteDirective): seq<string> {
    match d
    case AllowedMethods(methods) => ["allowed_methods"] + methods + [NL]
    case Root(path) => ["root", path, NL]
    case AutoIndex(on) => ["autoindex", if on then "on" else "off", NL]
    case Index(files) => ["index"] + files + [NL]
    case CgiExtensions(extensions) => ["cgi_extensions"] + extensions + [NL]
    case UploadPath(directory) => ["upload_path", directory, NL]
    case Return(code, url) => ["return", Decimal(code), url, NL]
  }

  function RoutesTokens(ds: seq<RouteDirective>): seq<string> {
    if ds == [] then [] else RouteTokens(ds[0]) + RoutesTokens(ds[1..])
  }

  function ServerTokens(d: ServerDirective): seq<string> {
    match d
    case Listen(address) => ["listen", AddressText(address), NL]
    case ServerName(names) => ["server_name"] + names + [NL]
    case MaxBodySize(size) => ["client_max_body_size", Decimal(size), NL]
    case ErrorPage(code, file) => ["error_page", Decimal(code), file, NL]
    case Location(url, ds) => ["location", url, "{", NL] + RoutesTokens(ds) + ["}", NL]
  }

  function ServersTokens(ds: seq<ServerDirective>): seq<string> {
    if ds == [] then [] else ServerTokens(ds[0]) + ServersTokens(ds[1..])
  }

  function BlockTokens(block: ServerBlock): seq<string> {
    ["server", "{", NL] + ServersTokens(block.directives) + ["}", NL]
  }

  function BlocksTokens(blocks: seq<ServerBlock>): seq<string> {
    if blocks == [] then [] else BlockTokens(blocks[0]) + BlocksTokens(blocks[1..])
  }

  function ConfigTokens(blocks: seq<ServerBlock>): seq<string> {
    ["http", "{", NL] + BlocksTokens(blocks) + ["}", NL]
  }

  function ConfigText(blocks: seq<ServerBlock>): string {
    Printed(ConfigTokens(blocks))
  }

  // Reading the arenas as trees.

  function RouteAt(s: MachineState, ids: seq<nat>): seq<Route>
    requires forall i :: 0 <= i < |ids| ==> ids[i] < |s.routes|
  {
    seq(|ids|, i requires 0 <= i < |ids| => s.routes[ids[i]])
  }

  function TreeAt(s: MachineState, id: nat): ServerTree
    requires id < |s.servers|
  {
    var v := s.servers[id];
    ServerTree(v.host, v.port, v.names, RouteAt(s, v.routes), v.errorFiles, v.maxBodySize)
  }

  /** The pushed servers as trees, oldest first. */
  function Trees(s: MachineState): seq<ServerTree> {
    seq(|s.stack|, i requires 0 <= i < |s.stack| => TreeAt(s, s.stack[i]))
  }

  // Compiling one directive.

  lemma RouteLevels()
    ensures forall k :: k in {"allowed_methods", "root", "autoindex", "index", "cgi_extensions", "upload_path",
        "return"}
              ==> k in LEVELS && LEVELS[k] == LOCATION
  {
  }

  lemma ServerLevels()
    ensures forall k :: k in {"client_max_body_size", "error_page", "listen", "server_name", "location"}
              ==> k in LEVELS && LEVELS[k] == SERVER
    ensures "http" in LEVELS && LEVELS["http"] == BASE && "server" in LEVELS && LEVELS["server"] == HTTP
  {
  }

  lemma WordsAreNoNewlines(words: seq<string>)
    requires AllWords(words)
    ensures NL !in words
  {
    forall w | w in words
      ensures w != NL
    {
      NotNewline(w);
    }
  }

  lemma {:induction false} MethodsTaken(methods: seq<string>, taken: seq<string>)
    requires |taken| + |methods| <= 3 && forall i :: 0 <= i < |methods| ==> methods[i] in DEFAULT_METHODS
    ensures TakeMethods(methods + [NL], taken) == Taken(taken + methods, [NL])
    decreases |methods|
  {
    var tokens := methods + [NL];
    assert "GET"[0] != NL[0] && "POST"[0] != NL[0] && "DELETE"[0] != NL[0];
    if methods == [] {
      assert tokens == [NL] && taken + methods == taken;
    } else {
      assert tokens[1..] == methods[1..] + [NL];
      assert methods[0] in DEFAULT_METHODS;
      assert taken + [methods[0]] + methods[1..] == taken + methods;
      MethodsTaken(methods[1..], taken + [methods[0]]);
    }
  }

  /** What a parser leaves of a printed directive: the token to be popped and, when that is
      not the newline itself, the newline. */
  ghost predicate OnlyLineEnd(rest: seq<string>) {
    rest == [NL] || (|rest| == 2 && rest[1] == NL)
  }

  lemma WordLineParsed(words: seq<string>, keyword: string)
    requires AllWords(words)
    ensures var tokens := [keyword] + words + [NL];
            LineWords(tokens[1..]) == words && FromNewline(tokens[1..]) == [NL]
  {
    var tokens := [keyword] + words + [NL];
    assert tokens[1..] == words + [NL] + [];
    WordsAreNoNewlines(words);
    WordsThenNewline(words, []);
  }

  ghost predicate RouteParsedAs(fs: FileSystem, r: Route, d: RouteDirective) {
    var p := ParseRouteDirective(fs, r, RouteTokens(d));
    p.Taken? && p.value == RouteWith(r, d) && OnlyLineEnd(p.rest)
  }

  lemma MethodsLineParsed(fs: FileSystem, r: Route, d: RouteDirective)
    requires WellFormedRoute(fs, d) && d.AllowedMethods?
    ensures RouteParsedAs(fs, r, d)
  {
    assert RouteTokens(d)[1..] == d.methods + [NL];
    MethodsTaken(d.methods, []);
    assert [] + d.methods == d.methods;
  }

  lemma WordsLineParsed(fs: FileSystem, r: Route, d: RouteDirective)
    requires WellFormedRoute(fs, d) && (d.Index? || d.CgiExtensions?)
    ensures RouteParsedAs(fs, r, d)
  {
    if d.Index? {
      WordLineParsed(d.files, "index");
    } else {
      WordLineParsed(d.extensions, "cgi_extensions");
    }
  }

  lemma PathIsPlaced(path: string)
    requires path != "" && path != "."
    ensures BelowHtml(path) == Some(PlacedBelowHtml(path))
  {
    assert |path| == 1 && path[0] == '.' ==> path == ".";
    if path[0] == '.' {
      assert path[..2] == ['.', path[1]];
    }
  }

  /** `root` and `upload_path` of any word but "." lead to where it is placed below "html/". */
  lemma PathsArePlaced(fs: FileSystem, r: Route, path: string)
    requires path != "" && path != "."
    ensures ParseRouteDirective(fs, r, ["root", path, NL])
         == Taken(r.(fileSearchPath := PlacedBelowHtml(path)), [path, NL])
    ensures ParseRouteDirective(fs, r, ["upload_path", path, NL])
         == if PlacedBelowHtml(path) in fs.directories then Taken(r.(uploadPath := PlacedBelowHtml(path)), [path, NL])
            else Refused
    ensures path == "/" ==> PlacedBelowHtml(path) == "html/"
    ensures forall rest :: path == "/" + rest || path == "./" + rest ==> PlacedBelowHtml(path) == "html/" + rest
    ensures path[0] != '/' && !("./" <= path) ==> PlacedBelowHtml(path) == "html/" + path
  {
    PathIsPlaced(path);
    assert ["root", path, NL][1..] == [path, NL] && ["upload_path", path, NL][1..] == [path, NL];
    forall rest | path == "/" + rest || path == "./" + rest
      ensures PlacedBelowHtml(path) == "html/" + rest
    {
      if path == "/" + rest {
        assert path[1..] == rest;
        assert rest == "" ==> "html/" + rest == "html/";
      } else {
        assert path[..2] == "./" && path[2..] == rest;
      }
    }
  }

  lemma PathLineParsed(fs: FileSystem, r: Route, d: RouteDirective)
    requires WellFormedRoute(fs, d) && (d.Root? || d.UploadPath?)
    ensures RouteParsedAs(fs, r, d)
  {
    PathIsPlaced(if d.Root? then d.path else d.directory);
  }

  lemma FlagLineParsed(fs: FileSystem, r: Route, d: RouteDirective)
    requires WellFormedRoute(fs, d) && (d.AutoIndex? || d.Return?)
    ensures RouteParsedAs(fs, r, d)
  {
    if d.AutoIndex? {
      assert "on"[1] != "off"[1];
    } else {
      StringToIntOfDecimal(d.code);
    }
  }

  /** A printed route directive is parsed to what it means, up to the end of its line. */
  lemma RouteDirectiveParsed(fs: FileSystem, r: Route, d: RouteDirective)
    requires WellFormedRoute(fs, d)
    ensures RouteParsedAs(fs, r, d)
  {
    match d {
      case AllowedMethods(_) => MethodsLineParsed(fs, r, d);
      case Index(_) => WordsLineParsed(fs, r, d);
      case CgiExtensions(_) => WordsLineParsed(fs, r, d);
      case Root(_) => PathLineParsed(fs, r, d);
      case UploadPath(_) => PathLineParsed(fs, r, d);
      case _ => FlagLineParsed(fs, r, d);
    }
  }

  lemma ListenParsed(host: string, port: nat)
    requires port <= UINT16_MAX && ':' !in host
    ensures ListenArgument(host + ":" + Decimal(port)) == Some((host, port))
  {
    var arg := host + [':'] + Decimal(port);
    assert host + ":" + Decimal(port) == arg;
    CountConcat(host + [':'], Decimal(port), ':');
    CountConcat(host, [':'], ':');
    CountZero(host, ':');
    CountZero(Decimal(port), ':');
    assert Count([':'], ':') == 1;
    CutAt(host, ':', Decimal(port));
    ExtractUint16OfDecimal(port);
  }

  /** An argument without a colon is taken as an address exactly when it does not begin like
      a port number; otherwise that number is the port and the rest is dropped. */
  lemma AddressAloneExactly(host: string)
    requires IsWord(host) && ':' !in host
    ensures ListenArgument(host) == Some((host, DEFAULT_PORT)) <==> !StartsWithPort(host)
  {
    CountZero(host, ':');
    if StartsWithPort(host) {
      assert SkipSpaces("*") == "*";
      assert host != "*";
    }
  }

  /** Of an argument that begins with a port number only that number is kept. */
  lemma RestIsDropped(port: nat, rest: string)
    requires port <= UINT16_MAX && ':' !in rest && (rest == "" || !IsDigit(rest[0], 10))
    ensures ListenArgument(Decimal(port) + rest) == Some(("*", port))
  {
    CountZero(Decimal(port) + rest, ':');
    assert IsDigit((Decimal(port) + rest)[0], 10);
    DigitPrefixStops(Decimal(port), rest, 10);
    ValueOfDecimal(port);
  }

  /** So a dotted address alone is misread. */
  lemma DottedAddressIsMisread()
    ensures ListenArgument("127.0.0.1") == Some(("*", 127))
  {
    RestIsDropped(127, ".0.0.1");
    assert Decimal(1) == "1";
    assert Decimal(12) == "12";
    assert Decimal(127) == "127";
    assert "127" + ".0.0.1" == "127.0.0.1";
  }

  lemma AddressParsed(a: Address)
    requires WellFormedAddress(a)
    ensures ListenArgument(AddressText(a)) == Some((ListenHost(a), ListenPort(a)))
  {
    match a {
      case HostAndPort(host, port) => ListenParsed(host, port);
      case PortOnly(port) =>
        CountZero(Decimal(port), ':');
        ExtractUint16OfDecimal(port);
      case HostOnly(host) => AddressAloneExactly(host);
    }
  }

  /** The fields of a server that its directives set directly. */
  function OwnFields(fs: FileSystem, v: Server, d: ServerDirective): Server {
    match d
    case Listen(address) => v.(host := ListenHost(address), port := ListenPort(address))
    case ServerName(names) => v.(names := names)
    case MaxBodySize(size) => v.(maxBodySize := size)
    case ErrorPage(code, file) => WithErrorPage(fs, v, code, file)
    case Location(_, _) => v
  }

  ghost predicate ParsedAs(fs: FileSystem, v: Server, d: ServerDirective)
    requires !d.Location?
  {
    var p := ParseServerDirective(fs, v, ServerTokens(d));
    p.Taken? && p.value == OwnFields(fs, v, d) && OnlyLineEnd(p.rest)
  }

  lemma ListenLineParsed(fs: FileSystem, v: Server, d: ServerDirective)
    requires WellFormedServer(fs, d) && d.Listen? && v.port == PORT_UNSET
    ensures ParsedAs(fs, v, d)
  {
    AddressParsed(d.address);
    assert ServerTokens(d)[1..] == [AddressText(d.address), NL];
  }

  lemma NamesLineParsed(fs: FileSystem, v: Server, d: ServerDirective)
    requires WellFormedServer(fs, d) && d.ServerName?
    ensures ParsedAs(fs, v, d)
  {
    WordLineParsed(d.names, "server_name");
  }

  lemma SizeLineParsed(fs: FileSystem, v: Server, d: ServerDirective)
    requires WellFormedServer(fs, d) && d.MaxBodySize?
    ensures ParsedAs(fs, v, d)
  {
    var tokens := ServerTokens(d);
    StringToIntOfDecimal(d.size);
    SizeFits(d.size);
    assert tokens[1] == Decimal(d.size) && tokens[1..] == [Decimal(d.size), NL];
  }

  lemma SizeFits(size: nat)
    requires size <= INT_MAX
    ensures size % UINT32_RANGE == size
  {
  }

  lemma ErrorPageLineParsed(fs: FileSystem, v: Server, d: ServerDirective)
    requires WellFormedServer(fs, d) && d.ErrorPage?
    ensures ParsedAs(fs, v, d)
  {
    var tokens := ServerTokens(d);
    StringToIntOfDecimal(d.code);
    assert tokens[2..] == [d.file, NL];
  }

  lemma ServerDirectiveParsed(fs: FileSystem, v: Server, d: ServerDirective)
    requires WellFormedServer(fs, d) && !d.Location? && (d.Listen? ==> v.port == PORT_UNSET)
    ensures ParsedAs(fs, v, d)
  {
    match d {
      case Listen(_) => ListenLineParsed(fs, v, d);
      case ServerName(_) => NamesLineParsed(fs, v, d);
      case MaxBodySize(_) => SizeLineParsed(fs, v, d);
      case ErrorPage(_, _) => ErrorPageLineParsed(fs, v, d);
    }
  }

  // Compiling whole lines.

  lemma LineEndIsSkipped(fs: FileSystem, s: MachineState, rest: seq<string>)
    requires OnlyLineEnd(rest)
    ensures Exec(fs, s, rest[1..]) == Done(s)
  {
    if rest != [NL] {
      assert rest[1..] == [NL];
      assert Exec(fs, s, []) == Done(s);
    }
  }

  lemma DirectiveIsNoSymbol(keyword: string)
    requires keyword in LEVELS
    ensures keyword != "#" && keyword != "{" && keyword != "}" && keyword != NL
  {
  }

  function WithRoute(s: MachineState, r: Route): MachineState
    requires s.route.Some?
  {
    s.(routes := s.routes[s.route.value := r])
  }

  lemma RouteDirectiveCompiled(fs: FileSystem, s: MachineState, d: RouteDirective)
    requires WellFormedRoute(fs, d) && s.level == LOCATION && s.route.Some?
    ensures Exec(fs, s, RouteTokens(d)) == Done(WithRoute(s, RouteWith(s.routes[s.route.value], d)))
  {
    var tokens := RouteTokens(d);
    var r := s.routes[s.route.value];
    RouteLevels();
    assert tokens[0] in LEVELS && LEVELS[tokens[0]] == LOCATION && tokens[0] != "http" && tokens[0] != "server"
        && tokens[0] != "location";
    DirectiveIsNoSymbol(tokens[0]);
    RouteDirectiveParsed(fs, r, d);
    var rest := ParseRouteDirective(fs, r, tokens).rest;
    assert Step(fs, s, tokens) == Next(WithRoute(s, RouteWith(r, d)), rest[1..]);
    LineEndIsSkipped(fs, WithRoute(s, RouteWith(r, d)), rest);
  }

  lemma RouteTokensEndLine(d: RouteDirective)
    ensures EndsLine(RouteTokens(d))
  {
  }

  lemma {:induction false} RouteDirectivesCompiled(fs: FileSystem, s: MachineState, ds: seq<RouteDirective>)
    requires forall i :: 0 <= i < |ds| ==> WellFormedRoute(fs, ds[i])
    requires s.level == LOCATION && s.route.Some?
    ensures Exec(fs, s, RoutesTokens(ds)) == Done(WithRoute(s, RouteMeaning(s.routes[s.route.value], ds)))
    decreases |ds|
  {
    if ds == [] {
      assert WithRoute(s, s.routes[s.route.value]) == s;
    } else {
      var s' := WithRoute(s, RouteWith(s.routes[s.route.value], ds[0]));
      RouteDirectiveCompiled(fs, s, ds[0]);
      RouteTokensEndLine(ds[0]);
      ExecLines(fs, s, RouteTokens(ds[0]), RoutesTokens(ds[1..]));
      RouteDirectivesCompiled(fs, s', ds[1..]);
    }
  }

  /** The state after a location block with meaning `r`. */
  function WithLocation(s: MachineState, r: Route): MachineState
    requires s.serverBlock.Some?
  {
    var b := s.serverBlock.value;
    s.(routes := s.routes + [r], route := Some(|s.routes|),
       servers := s.servers[b := s.servers[b].(routes := s.servers[b].routes + [|s.routes|])])
  }

  lemma LocationOpened(fs: FileSystem, s: MachineState, url: string)
    requires s.level == SERVER && IsWord(url)
    ensures Exec(fs, s, ["location", url, "{", NL])
         == Done(Opened(WithRoute(WithNewRoute(s), NEW_ROUTE.(baseUrl := url))))
  {
    var tokens := ["location", url, "{", NL];
    var named := WithRoute(WithNewRoute(s), NEW_ROUTE.(baseUrl := url));
    ServerLevels();
    DirectiveIsNoSymbol("location");
    assert Step(fs, s, tokens) == Next(named, ["{", NL]) by {
      assert tokens[1..][1..] == ["{", NL];
    }
    BlockOpened(fs, named);
  }

  lemma BlockOpened(fs: FileSystem, s: MachineState)
    ensures Exec(fs, s, ["{", NL]) == Done(Opened(s))
  {
    assert ["{", NL][1..] == [NL];
    LineEndIsSkipped(fs, Opened(s), [NL, NL]);
    assert [NL, NL][1..] == [NL];
  }

  lemma BlockClosed(fs: FileSystem, s: MachineState, s': MachineState)
    requires Close(s, ["}", NL]) == Next(s', [NL])
    ensures Exec(fs, s, ["}", NL]) == Done(s')
  {
    assert "}" != "#" && "}" != "{";
    LineEndIsSkipped(fs, s', [NL, NL]);
    assert [NL, NL][1..] == [NL];
  }

  lemma LocationCompiled(fs: FileSystem, s: MachineState, d: ServerDirective)
    requires WellFormedServer(fs, d) && d.Location? && s.level == SERVER && s.serverBlock.Some?
    ensures Exec(fs, s, ServerTokens(d))
        == Done(WithLocation(s, RouteMeaning(NEW_ROUTE.(baseUrl := d.url), d.directives)))
  {
    var head, body, tail := ["location", d.url, "{", NL], RoutesTokens(d.directives), ["}", NL];
    var route := NEW_ROUTE.(baseUrl := d.url);
    var r := RouteMeaning(route, d.directives);
    var inside := Opened(WithRoute(WithNewRoute(s), route));
    LocationOpened(fs, s, d.url);
    RouteDirectivesCompiled(fs, inside, d.directives);
    LocationClosed(fs, s, route, r);
    RoutesTokensEndLine(d.directives);
    ExecBlock(fs, s, head, inside, body, WithRoute(inside, r), tail, WithLocation(s, r));
    assert ServerTokens(d) == head + body + tail;
  }

  lemma LocationClosed(fs: FileSystem, s: MachineState, route: Route, r: Route)
    requires s.level == SERVER && s.serverBlock.Some?
    ensures Exec(fs, WithRoute(Opened(WithRoute(WithNewRoute(s), route)), r), ["}", NL]) == Done(WithLocation(s, r))
    ensures Opened(WithRoute(WithNewRoute(s), route)).routes[|s.routes|] == route
  {
    var filled := WithRoute(Opened(WithRoute(WithNewRoute(s), route)), r);
    assert filled.routes == s.routes + [r];
    assert Close(filled, ["}", NL]) == Next(WithLocation(s, r), [NL]) by {
      assert ["}", NL][1..] == [NL];
      assert filled.brackets[..|filled.brackets| - 1] == s.brackets;
    }
    BlockClosed(fs, filled, WithLocation(s, r));
  }

  lemma RoutesTokensEndLine(ds: seq<RouteDirective>)
    ensures EndsLine(RoutesTokens(ds))
  {
    if ds != [] {
      RouteTokensEndLine(ds[0]);
      RoutesTokensEndLine(ds[1..]);
    }
  }

  /** What compiling a server's directives leaves alone: everything but the server itself
      and routes added to the arena. */
  ghost predicate OnlyServerGrew(s: MachineState, s': MachineState, b: nat) {
    && s'.level == s.level && s'.brackets == s.brackets && s'.httpFlag == s.httpFlag
    && s'.stack == s.stack && s'.serverBlock == s.serverBlock
    && |s'.servers| == |s.servers|
    && (forall i :: 0 <= i < |s.servers| && i != b ==> s'.servers[i] == s.servers[i])
    && s.routes <= s'.routes
  }

  function WithServer(s: MachineState, v: Server): MachineState
    requires s.serverBlock.Some? && v.routes == s.servers[s.serverBlock.value].routes
  {
    s.(servers := s.servers[s.serverBlock.value := v])
  }

  lemma OwnDirectiveCompiled(fs: FileSystem, s: MachineState, d: ServerDirective)
    requires WellFormedServer(fs, d) && !d.Location? && s.level == SERVER && s.serverBlock.Some?
    requires d.Listen? ==> s.servers[s.serverBlock.value].port == PORT_UNSET
    ensures Exec(fs, s, ServerTokens(d)) == Done(WithServer(s, OwnFields(fs, s.servers[s.serverBlock.value], d)))
  {
    var tokens := ServerTokens(d);
    var v := s.servers[s.serverBlock.value];
    ServerLevels();
    assert tokens[0] in LEVELS && LEVELS[tokens[0]] == SERVER && tokens[0] != "http" && tokens[0] != "server"
        && tokens[0] != "location";
    DirectiveIsNoSymbol(tokens[0]);
    ServerDirectiveParsed(fs, v, d);
    var rest := ParseServerDirective(fs, v, tokens).rest;
    assert Step(fs, s, tokens) == Next(WithServer(s, OwnFields(fs, v, d)), rest[1..]);
    LineEndIsSkipped(fs, WithServer(s, OwnFields(fs, v, d)), rest);
  }

  lemma LocationGrows(fs: FileSystem, s: MachineState, d: ServerDirective)
    requires d.Location? && s.serverBlock.Some?
    ensures var s' := WithLocation(s, RouteMeaning(NEW_ROUTE.(baseUrl := d.url), d.directives));
            var b := s.serverBlock.value;
            OnlyServerGrew(s, s', b) && TreeAt(s', b) == ServerWith(fs, TreeAt(s, b), d)
  {
    var b := s.serverBlock.value;
    var r := RouteMeaning(NEW_ROUTE.(baseUrl := d.url), d.directives);
    var s' := WithLocation(s, r);
    assert RouteAt(s', s'.servers[b].routes) == RouteAt(s, s.servers[b].routes) + [r];
  }

  lemma ServerDirectiveCompiled(fs: FileSystem, s: MachineState, d: ServerDirective) returns (s': MachineState)
    requires WellFormedServer(fs, d) && s.level == SERVER && s.serverBlock.Some?
    requires d.Listen? ==> s.servers[s.serverBlock.value].port == PORT_UNSET
    ensures Exec(fs, s, ServerTokens(d)) == Done(s')
    ensures OnlyServerGrew(s, s', s.serverBlock.value)
    ensures TreeAt(s', s.serverBlock.value) == ServerWith(fs, TreeAt(s, s.serverBlock.value), d)
  {
    var b := s.serverBlock.value;
    if d.Location? {
      LocationCompiled(fs, s, d);
      s' := WithLocation(s, RouteMeaning(NEW_ROUTE.(baseUrl := d.url), d.directives));
      LocationGrows(fs, s, d);
    } else {
      OwnDirectiveCompiled(fs, s, d);
      s' := WithServer(s, OwnFields(fs, s.servers[b], d));
      assert RouteAt(s', s'.servers[b].routes) == RouteAt(s, s.servers[b].routes);
    }
  }

  lemma ServerTokensEndLine(d: ServerDirective)
    ensures EndsLine(ServerTokens(d))
  {
  }

  lemma ServersTokensEndLine(ds: seq<ServerDirective>)
    ensures EndsLine(ServersTokens(ds))
  {
    if ds != [] {
      ServerTokensEndLine(ds[0]);
      ServersTokensEndLine(ds[1..]);
    }
  }

  lemma {:induction false} ServerDirectivesCompiled(fs: FileSystem, s: MachineState, ds: seq<ServerDirective>)
      returns (s': MachineState)
    requires s.level == SERVER && s.serverBlock.Some?
    requires forall i :: 0 <= i < |ds| ==> WellFormedServer(fs, ds[i])
    requires ListensOnce(ds, s.servers[s.serverBlock.value].port)
    ensures Exec(fs, s, ServersTokens(ds)) == Done(s')
    ensures OnlyServerGrew(s, s', s.serverBlock.value)
    ensures TreeAt(s', s.serverBlock.value) == ServerMeaning(fs, TreeAt(s, s.serverBlock.value), ds)
    decreases |ds|
  {
    s' := s;
    if ds != [] {
      var s1 := ServerDirectiveCompiled(fs, s, ds[0]);
      assert TreeAt(s1, s.serverBlock.value).port == s1.servers[s.serverBlock.value].port;
      ServerTokensEndLine(ds[0]);
      ExecLines(fs, s, ServerTokens(ds[0]), ServersTokens(ds[1..]));
      s' := ServerDirectivesCompiled(fs, s1, ds[1..]);
    }
  }

  lemma {:induction false} MeaningHasRoutes(fs: FileSystem, t: ServerTree, ds: seq<ServerDirective>)
    ensures |ServerMeaning(fs, t, ds).routes| >= |t.routes|
    ensures (exists i :: 0 <= i < |ds| && ds[i].Location?) ==> ServerMeaning(fs, t, ds).routes != []
    decreases |ds|
  {
    if ds != [] {
      MeaningHasRoutes(fs, ServerWith(fs, t, ds[0]), ds[1..]);
      if i :| 0 <= i < |ds| && ds[i].Location? {
        assert i > 0 ==> ds[1..][i - 1] == ds[i];
      }
    }
  }

  lemma ServerOpened(fs: FileSystem, s: MachineState)
    requires s.level == HTTP && s.httpFlag
    ensures Exec(fs, s, ["server", "{", NL]) == Done(Opened(WithNewServer(s)))
  {
    ServerLevels();
    DirectiveIsNoSymbol("server");
    var tokens := ["server", "{", NL];
    assert tokens[1..] == ["{", NL];
    assert "server"[0] != "http"[0];
    assert Step(fs, s, tokens) == Next(WithNewServer(s), ["{", NL]);
    BlockOpened(fs, WithNewServer(s));
  }

  /** Servers that are complete are not changed by what comes after them. */
  lemma TreeKept(s: MachineState, s': MachineState, id: nat)
    requires id < |s.servers| && id < |s'.servers| && s'.servers[id] == s.servers[id] && s.routes <= s'.routes
    ensures TreeAt(s', id) == TreeAt(s, id)
  {
    assert RouteAt(s', s.servers[id].routes) == RouteAt(s, s.servers[id].routes);
  }

  lemma BlockCompiled(fs: FileSystem, s: MachineState, block: ServerBlock) returns (s': MachineState)
    requires WellFormed(fs, block) && s.level == HTTP && s.httpFlag
    ensures Exec(fs, s, BlockTokens(block)) == Done(s')
    ensures s'.level == HTTP && s'.httpFlag && s'.brackets == s.brackets
    ensures Trees(s') == Trees(s) + [ServerMeaning(fs, NewTree(), block.directives)]
  {
    var b := |s.servers|;
    var inside := Opened(WithNewServer(s));
    ServerOpened(fs, s);
    assert RouteAt(inside, []) == [];
    assert TreeAt(inside, b) == NewTree();
    var filled := ServerDirectivesCompiled(fs, inside, block.directives);
    MeaningHasRoutes(fs, NewTree(), block.directives);
    assert |TreeAt(filled, b).routes| == |filled.servers[b].routes|;
    s' := Pushed(filled);
    ServerClosed(fs, filled);
    ServersTokensEndLine(block.directives);
    ExecBlock(fs, s, ["server", "{", NL], inside, ServersTokens(block.directives), filled, ["}", NL], s');
    TreesPushed(s, filled);
  }

  /** The state after the bracket that closes a server. */
  function Pushed(s: MachineState): MachineState
    requires s.brackets != [] && s.serverBlock.Some?
  {
    ClosedOnce(s.(stack := s.stack + [s.serverBlock.value]))
  }

  lemma ServerClosed(fs: FileSystem, s: MachineState)
    requires s.level == SERVER && s.serverBlock.Some? && s.servers[s.serverBlock.value].routes != []
    requires s.brackets != [] && s.brackets[|s.brackets| - 1] == '{'
    ensures Exec(fs, s, ["}", NL]) == Done(Pushed(s))
  {
    assert Close(s, ["}", NL]) == Next(Pushed(s), [NL]) by { assert ["}", NL][1..] == [NL]; }
    BlockClosed(fs, s, Pushed(s));
  }

  lemma TreesPushed(s: MachineState, filled: MachineState)
    requires filled.serverBlock == Some(|s.servers|) && filled.brackets != [] && filled.stack == s.stack
    requires forall i :: 0 <= i < |s.servers| ==> filled.servers[i] == s.servers[i]
    requires s.routes <= filled.routes
    ensures Trees(Pushed(filled)) == Trees(s) + [TreeAt(filled, |s.servers|)]
  {
    var s' := Pushed(filled);
    forall i | 0 <= i < |s.stack|
      ensures TreeAt(s', s'.stack[i]) == TreeAt(s, s.stack[i])
    {
      TreeKept(s, s', s.stack[i]);
    }
    TreeKept(filled, s', |s.servers|);
  }

  lemma BlockTokensEndLine(block: ServerBlock)
    ensures EndsLine(BlockTokens(block))
  {
  }

  lemma BlocksTokensEndLine(blocks: seq<ServerBlock>)
    ensures EndsLine(BlocksTokens(blocks))
  {
    if blocks != [] {
      BlockTokensEndLine(blocks[0]);
      BlocksTokensEndLine(blocks[1..]);
    }
  }

  lemma MeaningsStep(fs: FileSystem, before: seq<ServerTree>, blocks: seq<ServerBlock>)
    requires blocks != []
    ensures before + [ServerMeaning(fs, NewTree(), blocks[0].directives)] + Meanings(fs, blocks[1..])
        == before + Meanings(fs, blocks)
  {
    assert Meanings(fs, blocks) == [ServerMeaning(fs, NewTree(), blocks[0].directives)] + Meanings(fs, blocks[1..]);
  }

  lemma {:induction false} BlocksCompiled(fs: FileSystem, s: MachineState, blocks: seq<ServerBlock>)
      returns (s': MachineState)
    requires s.level == HTTP && s.httpFlag
    requires forall i :: 0 <= i < |blocks| ==> WellFormed(fs, blocks[i])
    ensures Exec(fs, s, BlocksTokens(blocks)) == Done(s')
    ensures s'.level == HTTP && s'.httpFlag && s'.brackets == s.brackets
    ensures Trees(s') == Trees(s) + Meanings(fs, blocks)
    decreases |blocks|
  {
    s' := s;
    if blocks != [] {
      var s1 := BlockCompiled(fs, s, blocks[0]);
      BlockTokensEndLine(blocks[0]);
      ExecLines(fs, s, BlockTokens(blocks[0]), BlocksTokens(blocks[1..]));
      s' := BlocksCompiled(fs, s1, blocks[1..]);
      MeaningsStep(fs, Trees(s), blocks);
    }
  }

  lemma HttpOpened(fs: FileSystem)
    ensures Exec(fs, INITIAL, ["http", "{", NL]) == Done(Opened(INITIAL.(httpFlag := true)))
  {
    var flagged: MachineState := INITIAL.(httpFlag := true);
    var head := ["http", "{", NL];
    ServerLevels();
    DirectiveIsNoSymbol("http");
    assert head[1..] == ["{", NL];
    assert Step(fs, INITIAL, head) == Next(flagged, ["{", NL]);
    BlockOpened(fs, flagged);
  }

  /** The tokens of a configuration tree, executed from the start. */
  lemma ConfigExecuted(fs: FileSystem, blocks: seq<ServerBlock>) returns (s': MachineState)
    requires blocks != [] && forall i :: 0 <= i < |blocks| ==> WellFormed(fs, blocks[i])
    ensures Exec(fs, INITIAL, ConfigTokens(blocks)) == Done(s')
    ensures s'.brackets == [] && Trees(s') == Meanings(fs, blocks)
  {
    var head, body, tail := ["http", "{", NL], BlocksTokens(blocks), ["}", NL];
    var inside := Opened(INITIAL.(httpFlag := true));
    HttpOpened(fs);
    var s := BlocksCompiled(fs, inside, blocks);
    s' := ClosedOnce(s);
    assert |Trees(s)| == |s.stack|;
    HttpClosed(fs, s);
    BlocksTokensEndLine(blocks);
    ExecBlock(fs, INITIAL, head, inside, body, s, tail, s');
    assert Trees(inside) == [];
  }

  lemma HttpClosed(fs: FileSystem, s: MachineState)
    requires s.level == HTTP && s.brackets == ['{'] && s.stack != []
    ensures Exec(fs, s, ["}", NL]) == Done(ClosedOnce(s)) && Trees(ClosedOnce(s)) == Trees(s)
  {
    var tail := ["}", NL];
    assert Close(s, tail) == Next(ClosedOnce(s), [NL]) by { assert tail[1..] == [NL]; }
    BlockClosed(fs, s, ClosedOnce(s));
  }

  /** Compiling the tokens of a configuration tree accepts it and delivers its servers in the
      order they are written, each with every directive's value. */
  lemma TokensRoundTrip(fs: FileSystem, blocks: seq<ServerBlock>)
    requires blocks != [] && forall i :: 0 <= i < |blocks| ==> WellFormed(fs, blocks[i])
    ensures Run(fs, INITIAL, ConfigTokens(blocks)).Accepted?
    ensures Trees(Run(fs, INITIAL, ConfigTokens(blocks)).state) == Meanings(fs, blocks)
  {
    var s := ConfigExecuted(fs, blocks);
    var all := ConfigTokens(blocks);
    assert EndsLine(all);
    RunLines(fs, INITIAL, all, []);
    assert all + [] == all;
  }

  // From tokens to text.

  /** Tokens that can be printed line after line. */
  predicate Lines(tokens: seq<string>) {
    Canonical(tokens) && (tokens != [] ==> tokens[0] != NL)
  }

  lemma LinesJoin(a: seq<string>, b: seq<string>)
    requires Lines(a) && Lines(b)
    ensures Lines(a + b)
  {
  }

  lemma LineOf(keyword: string, words: seq<string>)
    requires IsWord(keyword) && AllWords(words)
    ensures Lines([keyword] + words + [NL])
  {
    NotNewline(keyword);
    WordsAreNoNewlines(words);
  }

  lemma SymbolsAreWords(keyword: string)
    requires keyword in DEFAULT_METHODS || keyword in ["{", "}", "on", "off"]
    ensures IsWord(keyword)
  {
  }

  lemma DirectivesAreWords()
    ensures IsWord("http") && IsWord("server") && IsWord("location")
    ensures IsWord("listen") && IsWord("server_name") && IsWord("client_max_body_size") && IsWord("error_page")
  {
  }

  lemma RouteDirectivesAreWords()
    ensures IsWord("allowed_methods") && IsWord("root") && IsWord("autoindex") && IsWord("index")
    ensures IsWord("cgi_extensions") && IsWord("upload_path") && IsWord("return")
  {
  }

  lemma KeywordsAreWords(keyword: string)
    requires keyword in LEVELS || keyword in DEFAULT_METHODS || keyword in ["{", "}", "on", "off"]
    ensures IsWord(keyword)
  {
    if keyword in LEVELS {
      DirectivesAreWords();
      RouteDirectivesAreWords();
    } else {
      SymbolsAreWords(keyword);
    }
  }

  lemma NumbersAreWords(host: string, n: nat)
    requires host == "" || IsWord(host)
    ensures IsWord(Decimal(n)) && IsWord(host + ":" + Decimal(n))
  {
  }

  lemma AddressIsWord(a: Address)
    requires WellFormedAddress(a)
    ensures IsWord(AddressText(a))
  {
    match a {
      case HostAndPort(host, port) => NumbersAreWords(host, port);
      case PortOnly(port) => NumbersAreWords("", port);
      case HostOnly(_) =>
    }
  }

  lemma RouteTokensAreLines(fs: FileSystem, d: RouteDirective)
    requires WellFormedRoute(fs, d)
    ensures Lines(RouteTokens(d))
  {
    var tokens := RouteTokens(d);
    KeywordsAreWords(tokens[0]);
    var words := tokens[1..|tokens| - 1];
    match d {
      case AllowedMethods(methods) =>
        assert words == methods;
        forall i | 0 <= i < |methods|
          ensures IsWord(methods[i])
        {
          KeywordsAreWords(methods[i]);
        }
      case AutoIndex(on) => KeywordsAreWords(words[0]);
      case Index(files) => assert words == files;
      case CgiExtensions(extensions) => assert words == extensions;
      case Return(code, url) => NumbersAreWords("", code);
      case _ =>
    }
    LineOf(tokens[0], words);
    assert tokens == [tokens[0]] + words + [NL];
  }

  lemma {:induction false} RoutesTokensAreLines(fs: FileSystem, ds: seq<RouteDirective>)
    requires forall i :: 0 <= i < |ds| ==> WellFormedRoute(fs, ds[i])
    ensures Lines(RoutesTokens(ds))
  {
    if ds != [] {
      RouteTokensAreLines(fs, ds[0]);
      RoutesTokensAreLines(fs, ds[1..]);
      LinesJoin(RouteTokens(ds[0]), RoutesTokens(ds[1..]));
    }
  }

  lemma BlockOfLines(head: seq<string>, body: seq<string>)
    requires AllWords(head) && head != [] && Lines(body)
    ensures Lines(head + ["{", NL] + body + ["}", NL])
  {
    KeywordsAreWords("{");
    KeywordsAreWords("}");
    WordsAreNoNewlines(head);
    LineOf(head[0], head[1..] + ["{"]);
    LineOf("}", []);
    assert [head[0]] + (head[1..] + ["{"]) + [NL] == head + ["{", NL];
    assert ["}"] + [] + [NL] == ["}", NL];
    LinesJoin(head + ["{", NL], body);
    LinesJoin(head + ["{", NL] + body, ["}", NL]);
  }

  lemma ServerTokensAreLines(fs: FileSystem, d: ServerDirective)
    requires WellFormedServer(fs, d)
    ensures Lines(ServerTokens(d))
  {
    var tokens := ServerTokens(d);
    KeywordsAreWords(tokens[0]);
    if d.Location? {
      RoutesTokensAreLines(fs, d.directives);
      BlockOfLines(["location", d.url], RoutesTokens(d.directives));
      assert ["location", d.url] + ["{", NL] == ["location", d.url, "{", NL];
    } else {
      var words := tokens[1..|tokens| - 1];
      match d {
        case Listen(address) => AddressIsWord(address);
        case ServerName(names) => assert words == names;
        case MaxBodySize(size) => NumbersAreWords("", size);
        case ErrorPage(code, file) => NumbersAreWords("", code);
      }
      LineOf(tokens[0], words);
      assert tokens == [tokens[0]] + words + [NL];
    }
  }

  lemma {:induction false} ServersTokensAreLines(fs: FileSystem, ds: seq<ServerDirective>)
    requires forall i :: 0 <= i < |ds| ==> WellFormedServer(fs, ds[i])
    ensures Lines(ServersTokens(ds))
  {
    if ds != [] {
      ServerTokensAreLines(fs, ds[0]);
      ServersTokensAreLines(fs, ds[1..]);
      LinesJoin(ServerTokens(ds[0]), ServersTokens(ds[1..]));
    }
  }

  lemma {:induction false} BlocksTokensAreLines(fs: FileSystem, blocks: seq<ServerBlock>)
    requires forall i :: 0 <= i < |blocks| ==> WellFormed(fs, blocks[i])
    ensures Lines(BlocksTokens(blocks))
  {
    if blocks != [] {
      KeywordsAreWords("server");
      ServersTokensAreLines(fs, blocks[0].directives);
      BlockOfLines(["server"], ServersTokens(blocks[0].directives));
      assert ["server"] + ["{", NL] == ["server", "{", NL];
      BlocksTokensAreLines(fs, blocks[1..]);
      LinesJoin(BlockTokens(blocks[0]), BlocksTokens(blocks[1..]));
    }
  }

  /** Every configuration tree survives being printed as text and compiled again. */
  lemma ConfigRoundTrip(fs: FileSystem, blocks: seq<ServerBlock>)
    requires blocks != [] && forall i :: 0 <= i < |blocks| ==> WellFormed(fs, blocks[i])
    ensures Compile(fs, ConfigText(blocks)).Accepted?
    ensures Trees(Compile(fs, ConfigText(blocks)).state) == Meanings(fs, blocks)
  {
    KeywordsAreWords("http");
    BlocksTokensAreLines(fs, blocks);
    BlockOfLines(["http"], BlocksTokens(blocks));
    assert ["http"] + ["{", NL] == ["http", "{", NL];
    PrintThenTokenize(ConfigTokens(blocks));
    TokensRoundTrip(fs, blocks);
    assert ConfigTokens(blocks)[0] == "http";
    assert |ConfigText(blocks)| > 0;
  }
}
