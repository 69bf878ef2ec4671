/** Concrete requests and configurations at which the server does not do what one would
    expect, each with what becomes of it. */
module Witnesses {
  import opened CppStrings
  import opened Numbers
  import opened ConfigMachine
  import opened RequestSpec
  import opened RequestRoundTrip
  import opened Pipeline
  import opened PipelineSafety
  import opened PipelineReplies
  import opened Routing
  import ConfigRoundTrip
  import Tokenizer

  // A GET with a Host and nothing else.

  function Get(url: string): WireRequest {
    WireRequest("GET", 1, url, 1, "HTTP/1.1", [Field("Host", "x")], "")
  }

  function GetText(url: string): string {
    "GET " + url + " HTTP/1.1\r\nHost: x\r\n\r\n"
  }

  lemma HostField()
    ensures FieldsText([Field("Host", "x")]) == "Host: x\r\n"
    ensures InsertAll(map[], [Field("Host", "x")]) == map["Host" := "x"]
  {
    var fields := [Field("Host", "x")];
    assert fields[1..] == [];
    assert FieldText(fields[0]) == "Host: x\r\n";
  }

  lemma OneBlank()
    ensures Repeat(' ', 1) == " "
  {
    assert Repeat(' ', 0) == "";
  }

  lemma GetEnd()
    ensures "HTTP/1.1" + "\r\n" + ("Host: x\r\n" + ("\r\n" + "")) == "HTTP/1.1\r\nHost: x\r\n\r\n"
  {
  }

  lemma GetFront(url: string, behind: string)
    ensures "GET" + " " + (url + " " + behind) == "GET " + url + (" " + behind)
  {
  }

  lemma GetIsWritten(url: string)
    ensures Text(Get(url)) == GetText(url)
  {
    HostField();
    OneBlank();
    GetEnd();
    GetFront(url, "HTTP/1.1\r\nHost: x\r\n\r\n");
    assert " " + "HTTP/1.1\r\nHost: x\r\n\r\n" == " HTTP/1.1\r\nHost: x\r\n\r\n";
  }

  lemma GetIsWellFormed(url: string)
    requires url != "" && ' ' !in url
    ensures WellFormed(Get(url))
  {
    assert forall i :: 0 <= i < |Get(url).fields| ==> Get(url).fields[i] == Field("Host", "x");
    assert WellFormedField(Field("Host", "x"));
  }

  lemma GetIsNotChunked(url: string)
    ensures !IsChunked(InsertAll(map[], Get(url).fields))
  {
    HostField();
    assert "Content-Encoding"[0] != "Host"[0];
  }

  /** It is accepted with at most one dot in its path. */
  lemma GetIsAccepted(url: string)
    requires url != ""
    ensures AcceptedWire(Get(url)) <==> Count(PathOf(WithoutSlash(url)), '.') <= 1
    ensures RefusedWire(Get(url)) <==> Count(PathOf(WithoutSlash(url)), '.') > 1
  {
    HostField();
    assert "Expect"[0] != "Host"[0] && "Content-Type"[0] != "Host"[0];
  }

  /** It is matched to its route from the status that the dots in its path tell. */
  lemma GetIsMatched(url: string, uninitialised: int, servers: seq<ConfigRoundTrip.ServerTree>, disk: Disk)
    requires url != "" && ' ' !in url && servers != []
    ensures var status := if Count(PathOf(WithoutSlash(url)), '.') <= 1 then OK else BAD_REQUEST;
            FateOf(GetText(url), uninitialised, servers, disk)
            == FateOfMatching(Matched(Begun(status), AsWritten(Get(url), ""), servers, disk))
  {
    GetIsWritten(url);
    GetIsWellFormed(url);
    GetIsNotChunked(url);
    GetIsAccepted(url);
    StatusAsWritten(Get(url), uninitialised);
    FateAsWritten(Get(url), uninitialised, servers, disk);
  }

  // A path with two dots.

  lemma DottedPath()
    ensures PathOf("/a.b.c") == "/a.b.c" && Count("/a.b.c", '.') == 2
  {
    var url := "/a.b.c";
    FindMeaning(url, '?');
    assert url[1..] == "a.b.c" && url[1..][1..] == ".b.c" && ".b.c"[1..] == "b.c" && "b.c"[1..] == ".c"
        && ".c"[1..] == "c";
    assert Count("c", '.') == 0;
    assert Count(".c", '.') == 1;
    assert Count("b.c", '.') == 1;
    assert Count(".b.c", '.') == 2;
    assert Count("a.b.c", '.') == 2;
  }

  lemma DottedTarget(r: RequestData, url: string)
    requires r.target == "/" && Count(PathOf(url), '.') > 1
    ensures WithUrl(r, url).target == PathOf(url) && PathOf(url) != ""
  {
  }

  /** A request with two dots in its path is answered at 400 through a route never set. */
  lemma DottedRequestHasNoRoute(uninitialised: int, servers: seq<ConfigRoundTrip.ServerTree>, disk: Disk)
    requires servers != []
    ensures FateOf(GetText("/a.b.c"), uninitialised, servers, disk)
         == Ready(Begun(BAD_REQUEST), NullRoute)
  {
    var url := "/a.b.c";
    DottedPath();
    assert WithoutSlash(url) == url;
    DottedTarget(Unparsed(""), url);
    GetIsMatched(url, uninitialised, servers, disk);
    MatchedTrouble(BAD_REQUEST, AsWritten(Get(url), ""), servers, disk);
  }

  // A path that names a file without a slash in front.

  lemma SlashlessPath()
    ensures PathOf("a.txt") == "a.txt" && Count("a.txt", '.') == 1
  {
    var url := "a.txt";
    FindMeaning(url, '?');
    CountConcat("a", ".txt", '.');
    assert "a" + ".txt" == url && ".txt"[1..] == "txt" && "a"[1..] == "";
    CountZero("txt", '.');
    assert Count("a", '.') == 0;
  }

  lemma TargetWithoutSlash(url: string)
    requires url != "" && ' ' !in url && '/' !in url && PathOf(url) == url && Count(url, '.') == 1
    ensures AsWritten(Get(url), "").target == ""
  {
    GetIsWellFormed(url);
    EmptyTargetExactly(Get(url), "");
  }

  lemma EmptyTargetStrays(status: int, r: RequestData, servers: seq<ConfigRoundTrip.ServerTree>, disk: Disk)
    requires servers != [] && r.target == ""
    ensures FateOfMatching(Matched(Begun(status), r, servers, disk)) == Strays
  {
  }

  lemma RequestWithoutSlashStrays(url: string, uninitialised: int, servers: seq<ConfigRoundTrip.ServerTree>, disk: Disk)
    requires url != "" && ' ' !in url && '/' !in url && PathOf(url) == url && Count(url, '.') == 1 && servers != []
    ensures FateOf(GetText(url), uninitialised, servers, disk) == Strays
  {
    TargetWithoutSlash(url);
    GetIsMatched(url, uninitialised, servers, disk);
    EmptyTargetStrays(OK, AsWritten(Get(url), ""), servers, disk);
  }

  /** Such a request makes the route match read in front of an empty target. */
  lemma SlashlessRequestStrays(uninitialised: int, servers: seq<ConfigRoundTrip.ServerTree>, disk: Disk)
    requires servers != []
    ensures FateOf(GetText("a.txt"), uninitialised, servers, disk) == Strays
  {
    SlashlessPath();
    RequestWithoutSlashStrays("a.txt", uninitialised, servers, disk);
  }

  // A content type that is to be refused.

  const VIDEO := WireRequest("GET", 1, "/", 1, "HTTP/1.1", [Field("Host", "x"), Field("Content-Type", "video/mp4")], "")

  lemma VideoFields()
    ensures InsertAll(map[], VIDEO.fields) == map["Host" := "x", "Content-Type" := "video/mp4"]
  {
    var fields := VIDEO.fields;
    assert fields[1..] == [Field("Content-Type", "video/mp4")] && fields[1..][1..] == [];
    assert "Host"[0] != "Content-Type"[0];
    TwoInserted(map[], fields);
  }

  lemma TwoInserted(headers: map<string, string>, fields: seq<Field>)
    requires |fields| == 2
    ensures InsertAll(headers, fields)
        == Inserted(Inserted(headers, fields[0].name, fields[0].value), fields[1].name, fields[1].value)
  {
    var one := Inserted(headers, fields[0].name, fields[0].value);
    var more := fields[1..];
    assert more[0] == fields[1] && more[1..] == [];
    assert InsertAll(headers, fields) == InsertAll(one, more);
    assert InsertAll(one, more) == InsertAll(Inserted(one, more[0].name, more[0].value), more[1..]);
  }

  lemma VideoFieldsAreWellFormed(host: Field, kind: Field)
    requires host == Field("Host", "x") && kind == Field("Content-Type", "video/mp4")
    ensures WellFormedField(host) && WellFormedField(kind)
  {
  }

  lemma VideoIsWellFormed()
    ensures WellFormed(VIDEO)
  {
    var host, kind := Field("Host", "x"), Field("Content-Type", "video/mp4");
    VideoFieldsAreWellFormed(host, kind);
    assert forall i :: 0 <= i < |VIDEO.fields| ==> VIDEO.fields[i] == host || VIDEO.fields[i] == kind;
  }

  lemma RootPath()
    ensures WithoutSlash("/") == "" && PathOf("") == "/" && Count("/", '.') == 0
    ensures WithUrl(Unparsed(""), "") == Unparsed("")
  {
    assert "/"[..0] == "" && "/"[1..] == "";
  }

  lemma VideoIsAllowed()
    ensures AcceptedFields("GET", "HTTP/1.1", map["Host" := "x", "Content-Type" := "video/mp4"])
    ensures !IsChunked(map["Host" := "x", "Content-Type" := "video/mp4"])
  {
    assert "Expect"[0] != "Host"[0] && "Expect"[0] != "Content-Type"[0];
    assert "Content-Encoding"[0] != "Host"[0] && "Content-Encoding"[8] != "Content-Type"[8];
    assert "Content-Type"[0] != "Host"[0];
    assert |"video/mp4"| != |"video"| && "video/mp4"[0] != "multipart"[0];
    assert !Contains("video/mp4", "multipart/form");
  }

  /** The check that is to refuse videos accepts one. */
  lemma VideoIsAccepted(uninitialised: int)
    ensures var outcome := RequestSpec.Parse(Unparsed(Text(VIDEO)), uninitialised);
            outcome.Parsed? && outcome.request.status == OK
  {
    VideoIsWellFormed();
    VideoFields();
    VideoIsAllowed();
    RootPath();
    WholeRequestRoundTrip(VIDEO, uninitialised);
    ParsedAsWritten(VIDEO, uninitialised);
  }

  // A redirect.

  /** `http { server { location / { return <code> /x } } }`. */
  function Redirecting(code: nat): seq<ConfigRoundTrip.ServerBlock> {
    [ConfigRoundTrip.ServerBlock([ConfigRoundTrip.Location("/", [ConfigRoundTrip.Return(code, "/x")])])]
  }

  function RedirectingRoute(code: nat): Route {
    NEW_ROUTE.(baseUrl := "/", redirect := Some(Redirect("/x", code)))
  }

  function RedirectingServer(code: nat): ConfigRoundTrip.ServerTree {
    ConfigRoundTrip.NewTree().(routes := [RedirectingRoute(code)])
  }

  lemma RedirectingIsWellFormed(fs: FileSystem, code: nat)
    requires code <= INT_MAX
    ensures ConfigRoundTrip.WellFormed(fs, Redirecting(code)[0])
  {
    var d := ConfigRoundTrip.Location("/", [ConfigRoundTrip.Return(code, "/x")]);
    assert Tokenizer.IsWord("/") && Tokenizer.IsWord("/x");
    assert ConfigRoundTrip.WellFormedRoute(fs, d.directives[0]);
    assert ConfigRoundTrip.WellFormedServer(fs, d);
    assert Redirecting(code)[0].directives[0] == d;
    assert Redirecting(code)[0].directives[1..] == [];
  }

  lemma OneRouteDirective(r: Route, ds: seq<ConfigRoundTrip.RouteDirective>)
    requires |ds| == 1
    ensures ConfigRoundTrip.RouteMeaning(r, ds) == ConfigRoundTrip.RouteWith(r, ds[0])
  {
    assert ConfigRoundTrip.RouteMeaning(r, ds)
        == ConfigRoundTrip.RouteMeaning(ConfigRoundTrip.RouteWith(r, ds[0]), ds[1..]);
  }

  lemma OneServerDirective(fs: FileSystem, t: ConfigRoundTrip.ServerTree, ds: seq<ConfigRoundTrip.ServerDirective>)
    requires |ds| == 1
    ensures ConfigRoundTrip.ServerMeaning(fs, t, ds) == ConfigRoundTrip.ServerWith(fs, t, ds[0])
  {
    assert ConfigRoundTrip.ServerMeaning(fs, t, ds)
        == ConfigRoundTrip.ServerMeaning(fs, ConfigRoundTrip.ServerWith(fs, t, ds[0]), ds[1..]);
  }

  lemma RedirectingMeans(fs: FileSystem, code: nat)
    ensures ConfigRoundTrip.Meanings(fs, Redirecting(code)) == [RedirectingServer(code)]
  {
    var ds := Redirecting(code)[0].directives;
    var rs := ds[0].directives;
    assert ds[1..] == [] && rs[1..] == [];
    OneRouteDirective(NEW_ROUTE.(baseUrl := "/"), rs);
    OneServerDirective(fs, ConfigRoundTrip.NewTree(), ds);
    assert [] + [RedirectingRoute(code)] == [RedirectingRoute(code)];
    assert |ConfigRoundTrip.Meanings(fs, Redirecting(code))| == 1;
  }

  lemma OneGroup(server: ConfigRoundTrip.ServerTree)
    ensures var groups := Grouped([], [server]); |groups| == 1 && groups[0].servers == [server]
  {
    var declared := [server];
    assert declared[..0] == [];
    assert Grouped([], declared) == Grouped(WithServer([], declared[0]), declared[..0]);
  }

  lemma RedirectingIsAccepted(fs: FileSystem, code: nat)
    requires code <= INT_MAX
    ensures var verdict := Compile(fs, ConfigRoundTrip.ConfigText(Redirecting(code)));
            && verdict.Accepted?
            && var groups := Grouped([], ConfigRoundTrip.Trees(verdict.state));
               |groups| == 1 && groups[0].servers == [RedirectingServer(code)]
  {
    RedirectingIsWellFormed(fs, code);
    RedirectingMeans(fs, code);
    ConfigRoundTrip.ConfigRoundTrip(fs, Redirecting(code));
    OneGroup(RedirectingServer(code));
  }

  lemma OneServer(server: ConfigRoundTrip.ServerTree, headers: map<string, string>)
    ensures Selected([server], headers) == server
  {
    SelectedIsOne([server], headers);
  }

  lemma RedirectingRedirects(code: nat, r: RequestData)
    requires code != OK && r.verb == "GET" && r.target == "/"
    ensures RouteOf(r, [RedirectingServer(code)]) == Some(RedirectingRoute(code))
    ensures Redirected(r, RedirectingRoute(code), 1)
  {
    OneServer(RedirectingServer(code), r.headers);
    assert StrippedTarget("/") == "/" && RedirectingServer(code).routes[0].baseUrl == "/";
  }

  lemma RedirectingIsMatched(code: nat, r: RequestData, disk: Disk)
    requires code != OK && r.verb == "GET" && r.target == "/"
    ensures var h := Matched(Begun(OK), r, [RedirectingServer(code)], disk);
            h.Done? && h.route == Some(RedirectingRoute(code)) && h.exchange.status == code && !h.exchange.cgi
  {
    OneServer(RedirectingServer(code), r.headers);
    RedirectingRedirects(code, r);
    var m := MatchingFor([RedirectingServer(code)], OK, r.headers, r.target);
    HandledStatus(Begun(OK), r, RedirectingRoute(code), m.maxBodySize, disk);
  }

  lemma RootIsMatched(uninitialised: int, servers: seq<ConfigRoundTrip.ServerTree>, disk: Disk)
      returns (r: RequestData)
    requires servers != []
    ensures r.target == "/" && r.verb == "GET"
    ensures FateOf(GetText("/"), uninitialised, servers, disk) == FateOfMatching(Matched(Begun(OK), r, servers, disk))
  {
    r := AsWritten(Get("/"), "");
    RootPath();
    GetIsMatched("/", uninitialised, servers, disk);
  }

  lemma RedirectingEnds(code: nat, r: RequestData, disk: Disk)
    requires code != OK && r.target == "/" && r.verb == "GET"
    ensures var fate := FateOfMatching(Matched(Begun(OK), r, [RedirectingServer(code)], disk));
            && fate.Ready? && fate.exchange.status == code && !fate.exchange.cgi
            && fate.reply == RedirectReply(RedirectingRoute(code))
  {
    RedirectingRedirects(code, r);
    OneServer(RedirectingServer(code), r.headers);
    MatchedFate(OK, r, [RedirectingServer(code)], disk);
  }

  lemma RedirectingFares(code: nat, uninitialised: int, disk: Disk)
    requires code != OK
    ensures var fate := FateOf(GetText("/"), uninitialised, [RedirectingServer(code)], disk);
            && fate.Ready? && fate.exchange.status == code && !fate.exchange.cgi
            && fate.reply == RedirectReply(RedirectingRoute(code))
  {
    var r := RootIsMatched(uninitialised, [RedirectingServer(code)], disk);
    RedirectingEnds(code, r, disk);
  }

  /** A configuration that redirects with any code but 200 is accepted, and a GET gets from it
      what the code tells: 204 sends nothing, a code without a reason phrase raises an
      exception, and every other one is answered. */
  lemma RedirectIsAnsweredByItsCode(fs: FileSystem, code: nat, uninitialised: int, disk: Disk)
    requires code <= INT_MAX && code != OK
    ensures var verdict := Compile(fs, ConfigRoundTrip.ConfigText(Redirecting(code)));
            && verdict.Accepted?
            && var groups := Grouped([], ConfigRoundTrip.Trees(verdict.state));
               && |groups| == 1 && groups[0].servers != []
               && var fate := FateOf(GetText("/"), uninitialised, groups[0].servers, disk);
                  && fate.Ready? && fate.exchange.status == code && !fate.exchange.cgi
                  && fate.reply == RedirectReply(RedirectingRoute(code))
  {
    RedirectingIsAccepted(fs, code);
    RedirectingFares(code, uninitialised, disk);
  }

  /** `return 299 /x` makes every GET of "/" raise an exception. */
  lemma UnknownRedirectRaises(fs: FileSystem, uninitialised: int, disk: Disk)
    ensures var verdict := Compile(fs, ConfigRoundTrip.ConfigText(Redirecting(299)));
            && verdict.Accepted?
            && var groups := Grouped([], ConfigRoundTrip.Trees(verdict.state));
               && |groups| == 1 && groups[0].servers != []
               && var fate := FateOf(GetText("/"), uninitialised, groups[0].servers, disk);
                  fate.Ready? && fate.reply == NoReason
  {
    RedirectIsAnsweredByItsCode(fs, 299, uninitialised, disk);
  }
  // A CGI.

  /** `http { server { location / { cgi_extensions .py } } }`. */
  const SCRIPTING: seq<ConfigRoundTrip.ServerBlock> :=
    [ConfigRoundTrip.ServerBlock([ConfigRoundTrip.Location("/", [ConfigRoundTrip.CgiExtensions([".py"])])])]

  const SCRIPTING_ROUTE: Route := NEW_ROUTE.(baseUrl := "/", cgiExtensions := [".py"])

  const SCRIPTING_SERVER: ConfigRoundTrip.ServerTree := ConfigRoundTrip.NewTree().(routes := [SCRIPTING_ROUTE])

  lemma ScriptingIsWellFormed(fs: FileSystem)
    ensures ConfigRoundTrip.WellFormed(fs, SCRIPTING[0])
  {
    var d := ConfigRoundTrip.Location("/", [ConfigRoundTrip.CgiExtensions([".py"])]);
    assert Tokenizer.IsWord("/") && Tokenizer.IsWord(".py");
    assert ConfigRoundTrip.WellFormedRoute(fs, d.directives[0]);
    assert ConfigRoundTrip.WellFormedServer(fs, d);
    assert SCRIPTING[0].directives[0] == d;
    assert SCRIPTING[0].directives[1..] == [];
  }

  lemma ScriptingMeans(fs: FileSystem)
    ensures ConfigRoundTrip.Meanings(fs, SCRIPTING) == [SCRIPTING_SERVER]
  {
    var ds := SCRIPTING[0].directives;
    var rs := ds[0].directives;
    OneRouteDirective(NEW_ROUTE.(baseUrl := "/"), rs);
    OneServerDirective(fs, ConfigRoundTrip.NewTree(), ds);
    assert [] + [".py"] == [".py"] && [] + [SCRIPTING_ROUTE] == [SCRIPTING_ROUTE];
    assert |ConfigRoundTrip.Meanings(fs, SCRIPTING)| == 1;
  }

  lemma ScriptingIsAccepted(fs: FileSystem)
    ensures var verdict := Compile(fs, ConfigRoundTrip.ConfigText(SCRIPTING));
            && verdict.Accepted?
            && var groups := Grouped([], ConfigRoundTrip.Trees(verdict.state));
               |groups| == 1 && groups[0].servers == [SCRIPTING_SERVER]
  {
    ScriptingIsWellFormed(fs);
    ScriptingMeans(fs);
    ConfigRoundTrip.ConfigRoundTrip(fs, SCRIPTING);
    OneGroup(SCRIPTING_SERVER);
  }

  lemma ScriptDots()
    ensures Count("/a.py", '.') == 1 && Find("/a.py", '.') == 2
    ensures Find("a.py", '.') == 1 && "a.py"[1..] == ".py"
  {
    assert "/a.py"[1..] == "a.py" && "a.py"[1..] == ".py" && ".py"[1..] == "py";
    CountZero("py", '.');
    assert Count(".py", '.') == 1;
    assert Count("a.py", '.') == 1;
    assert Find("a.py", '.') == 1;
  }

  lemma ScriptPath()
    ensures PathOf(WithoutSlash("/a.py")) == "/a.py" && Before("/a.py", '?') == "/a.py"
  {
    FindMeaning("/a.py", '?');
  }

  lemma ScriptFile()
    ensures Count("/a.py", '.') == 1 && FileOf("/a.py") == ("/", "a.py")
  {
    var url := "/a.py";
    ScriptDots();
    assert url[2..] == ".py";
    FindMeaning(".py", '/');
    assert FileEnd(url) == 5 && url[..5] == url;
    FindLastOfMeaning(url, '/');
    assert FindLastOf(url, '/') == 0;
    assert url[..1] == "/" && url[1..] == "a.py";
  }

  lemma SplitOfPath(r: RequestData, url: string)
    requires Before(url, '?') == url && url != "" && Count(url, '.') == 1
    ensures WithUrl(r, url).target == FileOf(url).0 && WithUrl(r, url).filename == FileOf(url).1
  {
  }

  lemma ScriptIsMatched(r: RequestData, disk: Disk)
    requires r.target == "/" && r.filename == "a.py" && r.verb == "GET"
    ensures var h := Matched(Begun(OK), r, [SCRIPTING_SERVER], disk);
            h.Done? && h.route == Some(SCRIPTING_ROUTE) && h.exchange.status == OK && h.exchange.cgi
  {
    OneServer(SCRIPTING_SERVER, r.headers);
    assert StrippedTarget("/") == "/" && SCRIPTING_SERVER.routes[0].baseUrl == "/";
    var m := MatchingFor([SCRIPTING_SERVER], OK, r.headers, r.target);
    assert m.route == Some(SCRIPTING_ROUTE);
    ScriptDots();
    CgiExactly(Begun(OK), r, m.route, m.maxBodySize, disk);
    HandledStatus(Begun(OK), r, SCRIPTING_ROUTE, m.maxBodySize, disk);
  }

  lemma FileRequest(url: string, uninitialised: int, servers: seq<ConfigRoundTrip.ServerTree>, disk: Disk)
      returns (r: RequestData)
    requires url != "" && ' ' !in url && WithoutSlash(url) == url && servers != []
    requires Before(url, '?') == url && Count(url, '.') == 1
    ensures r.target == FileOf(url).0 && r.filename == FileOf(url).1 && r.verb == "GET"
    ensures FateOf(GetText(url), uninitialised, servers, disk)
         == FateOfMatching(Matched(Begun(OK), r, servers, disk))
  {
    r := AsWritten(Get(url), "");
    SplitOfPath(Unparsed(""), url);
    GetIsMatched(url, uninitialised, servers, disk);
  }

  lemma ScriptFares(uninitialised: int, disk: Disk)
    ensures var fate := FateOf(GetText("/a.py"), uninitialised, [SCRIPTING_SERVER], disk);
            fate.Ready? && fate.exchange.status == OK && fate.exchange.cgi && fate.reply == Program
  {
    ScriptPath();
    ScriptFile();
    var r := FileRequest("/a.py", uninitialised, [SCRIPTING_SERVER], disk);
    ScriptIsMatched(r, disk);
  }

  /** A configuration that runs `.py` files is accepted, and a GET of "/a.py" from it
      starts a CGI. */
  lemma ScriptStartsCgi(fs: FileSystem, uninitialised: int, disk: Disk)
    ensures var verdict := Compile(fs, ConfigRoundTrip.ConfigText(SCRIPTING));
            && verdict.Accepted?
            && var groups := Grouped([], ConfigRoundTrip.Trees(verdict.state));
               && |groups| == 1 && groups[0].servers != []
               && var fate := FateOf(GetText("/a.py"), uninitialised, groups[0].servers, disk);
                  fate.Ready? && fate.exchange.status == OK && fate.exchange.cgi && fate.reply == Program
  {
    ScriptingIsAccepted(fs);
    ScriptFares(uninitialised, disk);
  }
}
