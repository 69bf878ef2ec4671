/** What is sent: the status a request ends with and the reply to it, from the bytes of the
    request on. */
module PipelineReplies {
  import opened CppStrings
  import opened Numbers
  import opened ConfigMachine
  import opened ConfigSafety
  import opened RequestSpec
  import opened Pipeline
  import opened PipelineSafety
  import opened Routing
  import opened RequestRoundTrip
  import ConfigRoundTrip

  // The tables of the servers.

  /** Every server has a table with exactly the known codes. */
  predicate Paged(servers: seq<ConfigRoundTrip.ServerTree>) {
    forall i :: 0 <= i < |servers| ==> servers[i].errorFiles.Keys == KNOWN_CODES
  }

  /** The servers on a port of an accepted configuration have such tables. */
  lemma AcceptedServersArePaged(fs: FileSystem, text: string, port: nat)
    requires Compile(fs, text).Accepted? && port < |Grouped([], ConfigRoundTrip.Trees(Compile(fs, text).state))|
    ensures var servers := Grouped([], ConfigRoundTrip.Trees(Compile(fs, text).state))[port].servers;
            servers != [] && Paged(servers)
  {
    var declared := ConfigRoundTrip.Trees(Compile(fs, text).state);
    var group := Grouped([], declared)[port];
    AcceptedTablesAreWhole(fs, text);
    GroupingIsAPartition(declared);
    forall i | 0 <= i < |group.servers|
      ensures group.servers[i].errorFiles.Keys == KNOWN_CODES
    {
      OnPortInLastFirst(declared, group.port, i);
    }
  }

  lemma {:induction false} SelectedIsOne(servers: seq<ConfigRoundTrip.ServerTree>, headers: map<string, string>)
    requires servers != []
    ensures FirstWhere(servers, NamedLike(headers)).Some? ==> FirstWhere(servers, NamedLike(headers)).value in servers
    ensures Selected(servers, headers) in servers
  {
    if |servers| > 1 && !NamedLike(headers)(servers[0]) {
      SelectedIsOne(servers[1..], headers);
    }
  }

  // The status.

  /** The route sends the request elsewhere: it has a redirect, accepts the method, and the
      body is not too large. */
  ghost predicate Redirected(r: RequestData, route: Route, limit: int) {
    && route.redirect.Some? && route.redirect.value.statusCode != OK
    && r.verb in route.acceptedMethods
    && (r.verb == "POST" ==> BodyLength(r).Some? && !ExceedsLimit(BodyLength(r).value, limit))
  }

  lemma CheckedStatus(x: Exchange, r: RequestData, route: Route, disk: Disk)
    requires !x.cgi
    ensures var y := MethodHandled(RouteChecked(x, r, route, disk), r, route, disk);
            if x.status == OK && r.verb in route.acceptedMethods
                && route.redirect.Some? && route.redirect.value.statusCode != OK
            then y.status == route.redirect.value.statusCode && !y.cgi
            else y.status in {x.status, OK, CREATED, BAD_REQUEST, NOT_FOUND, METHOD_NOT_ALLOWED, SERVER_ERROR}
                 && (y.cgi ==> y.status == OK)
  {
  }

  /** The status behind a route: the redirect's code, or one of seven others. */
  lemma HandledStatus(x: Exchange, r: RequestData, route: Route, limit: int, disk: Disk)
    requires x.status == OK && !x.cgi && Handled(x, r, Some(route), limit, disk).Some?
    ensures var y := Handled(x, r, Some(route), limit, disk).value;
            if Redirected(r, route, limit) then y.status == route.redirect.value.statusCode && !y.cgi
            else y.status in {OK, CREATED, BAD_REQUEST, NOT_FOUND, METHOD_NOT_ALLOWED, TOO_LARGE, SERVER_ERROR}
                 && (y.cgi ==> y.status == OK)
  {
    CheckedStatus(if r.verb == "POST" then SizeChecked(x, BodyLength(r).value, limit) else x, r, route, disk);
  }

  // The status and the CGI flag behind a route, by conditions on request, route, limit and disk.

  /** The file name has a dot, and what stands from its first dot on is in the list. */
  ghost predicate HasExtension(filename: string, extensions: seq<string>) {
    exists name, i :: 0 <= i < |extensions| && '.' !in name && filename == name + extensions[i]
                      && extensions[i] != "" && extensions[i][0] == '.'
  }

  lemma ExtensionFound(filename: string, extensions: seq<string>)
    requires Find(filename, '.') != NPOS && filename[Find(filename, '.')..] in extensions
    ensures HasExtension(filename, extensions)
  {
    FindMeaning(filename, '.');
    var dot := Find(filename, '.');
    var name, extension := filename[..dot], filename[dot..];
    var i :| 0 <= i < |extensions| && extensions[i] == extension;
    assert filename == name + extension && extension[0] == '.';
  }

  lemma ExtensionStands(name: string, extension: string)
    requires '.' !in name && extension != "" && extension[0] == '.'
    ensures Find(name + extension, '.') == |name| && (name + extension)[|name|..] == extension
  {
    var rest := extension[1..];
    assert extension == ['.'] + rest;
    Associate(name, ['.'], rest);
    FindAfter(name, '.', rest);
  }

  lemma ExtensionExactly(filename: string, extensions: seq<string>)
    ensures HasExtension(filename, extensions)
        <==> Find(filename, '.') != NPOS && filename[Find(filename, '.')..] in extensions
  {
    if Find(filename, '.') != NPOS && filename[Find(filename, '.')..] in extensions {
      ExtensionFound(filename, extensions);
    }
    if HasExtension(filename, extensions) {
      var name, i :| 0 <= i < |extensions| && '.' !in name && filename == name + extensions[i]
                     && extensions[i] != "" && extensions[i][0] == '.';
      ExtensionStands(name, extensions[i]);
    }
  }

  /** A GET is answered from an index file, by a CGI, or from the named file. */
  ghost predicate GetEnds(y: Exchange, r: RequestData, route: Route, disk: Disk) {
    if r.filename == "" then
      var found := exists i :: 0 <= i < |route.indexFiles|
                               && route.fileSearchPath + route.indexFiles[i] in disk.readable;
      !y.cgi && y.status == if found then 200 else 404
    else if HasExtension(r.filename, route.cgiExtensions) then y.cgi && y.status == 200
    else !y.cgi && y.status == if route.fileSearchPath + r.filename in disk.readable then 200 else 404
  }

  /** A POST is created, or let pass when its file cannot be, or refused when nothing names it. */
  ghost predicate PostEnds(y: Exchange, r: RequestData, route: Route, disk: Disk) {
    !y.cgi && (y.status == 201 || y.status == 200 || y.status == 400)
    && (y.status == 201 <==> exists path :: IsUploadPath(r, route, path) && path in disk.creatable)
    && (y.status == 200 <==> exists path :: IsUploadPath(r, route, path) && path !in disk.creatable)
    && (y.status == 400 <==> r.filename == "" && "Content-Type" !in r.headers)
  }

  ghost predicate DeleteEnds(y: Exchange, r: RequestData, route: Route, disk: Disk) {
    !y.cgi && y.status == if r.filename == "" then 400
                          else if route.fileSearchPath + r.filename !in disk.updatable then 404
                          else if route.fileSearchPath + r.filename !in disk.removable then 500 else 200
  }

  /** How a request ends behind its route. */
  ghost predicate EndsAs(y: Exchange, r: RequestData, route: Route, limit: int, disk: Disk) {
    StatusEnds(y, r, route, limit, disk) && SearchEnds(y, r, route)
  }

  /** Where the response looks for files, and whether it may list a directory. */
  predicate SearchEnds(y: Exchange, r: RequestData, route: Route) {
    y.autoIndex == route.autoIndex && y.fileSearch == if r.verb == "GET" then route.fileSearchPath else ""
  }

  ghost predicate StatusEnds(y: Exchange, r: RequestData, route: Route, limit: int, disk: Disk) {
    if r.verb == "POST" && BodyLength(r).Some? && ExceedsLimit(BodyLength(r).value, limit) then
      y.status == 413 && !y.cgi
    else if r.verb !in route.acceptedMethods then y.status == 405 && !y.cgi
    else if route.redirect.Some? && route.redirect.value.statusCode != 200 then
      y.status == route.redirect.value.statusCode && !y.cgi
    else if r.verb == "GET" then GetEnds(y, r, route, disk)
    else if r.verb == "POST" then PostEnds(y, r, route, disk)
    else if r.verb == "DELETE" then DeleteEnds(y, r, route, disk)
    else y.status == 200 && !y.cgi
  }

  lemma PostedEnds(x: Exchange, r: RequestData, route: Route, disk: Disk)
    requires x.status == OK && !x.cgi
    ensures PostEnds(Posted(x, r, route, disk), r, route, disk)
  {
    forall path
      ensures UploadTarget(r, route) == Some(path) <==> IsUploadPath(r, route, path)
    {
      UploadTargetExactly(r, route, path);
    }
    UploadTargetExactly(r, route, "");
    if UploadTarget(r, route).Some? {
      assert IsUploadPath(r, route, UploadTarget(r, route).value);
    }
  }

  lemma GottenEnds(x: Exchange, r: RequestData, route: Route, disk: Disk)
    requires x.status == OK && !x.cgi && r.verb == "GET"
    ensures GetEnds(FileChecked(x, r, route, disk), r, route, disk)
  {
    ExtensionExactly(r.filename, route.cgiExtensions);
  }

  lemma CheckedEnds(x: Exchange, r: RequestData, route: Route, disk: Disk)
    requires x.status == OK && !x.cgi && r.verb in route.acceptedMethods
    requires route.redirect.Some? ==> route.redirect.value.statusCode == OK
    ensures var y := MethodHandled(RouteChecked(x, r, route, disk), r, route, disk);
            if r.verb == "GET" then GetEnds(y, r, route, disk)
            else if r.verb == "POST" then PostEnds(y, r, route, disk)
            else if r.verb == "DELETE" then DeleteEnds(y, r, route, disk)
            else y.status == OK && !y.cgi
  {
    var z := if route.autoIndex then x.(autoIndex := true) else x;
    assert RedirectChecked(MethodChecked(x, r, route), route) == x;
    if r.verb == "GET" {
      GottenEnds(z, r, route, disk);
    } else if r.verb == "POST" {
      PostedEnds(z, r, route, disk);
    }
  }

  lemma TroubledEnds(x: Exchange, r: RequestData, route: Route, disk: Disk)
    requires !x.cgi
    requires x.status != OK || r.verb !in route.acceptedMethods
        || (route.redirect.Some? && route.redirect.value.statusCode != OK)
    ensures var y := MethodHandled(RouteChecked(x, r, route, disk), r, route, disk);
            !y.cgi && y.status == if x.status != OK then x.status
                                  else if r.verb !in route.acceptedMethods then METHOD_NOT_ALLOWED
                                  else route.redirect.value.statusCode
  {
  }

  /** Where files are looked for and whether a directory may be listed. */
  lemma SearchExactly(x: Exchange, r: RequestData, route: Route, limit: int, disk: Disk)
    requires x.status == OK && Handled(x, r, Some(route), limit, disk).Some?
    ensures var y := Handled(x, r, Some(route), limit, disk).value;
            && y.autoIndex == (x.autoIndex || route.autoIndex)
            && y.fileSearch == if r.verb == "GET" then route.fileSearchPath else x.fileSearch
  {
    SearchChecked(if r.verb == "POST" then SizeChecked(x, BodyLength(r).value, limit) else x, r, route, disk);
  }

  lemma SearchChecked(x: Exchange, r: RequestData, route: Route, disk: Disk)
    ensures var y := MethodHandled(RouteChecked(x, r, route, disk), r, route, disk);
            && y.autoIndex == (x.autoIndex || route.autoIndex)
            && y.fileSearch == if r.verb == "GET" then route.fileSearchPath else x.fileSearch
  {
  }

  /** The status and the CGI flag a request ends with behind its route are exactly these. */
  lemma EndExactly(x: Exchange, r: RequestData, route: Route, limit: int, disk: Disk)
    requires x == Exchange(OK, false, false, "", []) && Handled(x, r, Some(route), limit, disk).Some?
    ensures EndsAs(Handled(x, r, Some(route), limit, disk).value, r, route, limit, disk)
  {
    SearchExactly(x, r, route, limit, disk);
    var z := if r.verb == "POST" then SizeChecked(x, BodyLength(r).value, limit) else x;
    if z.status == OK && r.verb in route.acceptedMethods
        && (route.redirect.Some? ==> route.redirect.value.statusCode == OK) {
      CheckedEnds(z, r, route, disk);
    } else {
      TroubledEnds(z, r, route, disk);
    }
  }

  // The reply.

  /** What a redirect is answered with: nothing for 204, and no page for an unknown code. */
  function RedirectReply(route: Route): Reply
    requires route.redirect.Some?
  {
    var code := route.redirect.value.statusCode;
    if code == 204 then Silence
    else if code !in KNOWN_CODES then NoReason
    else if code == 201 then Page(code, Some(route.uploadPath))
    else if 300 <= code < 400 then Page(code, Some("http://" + route.redirect.value.url))
    else Page(code, None)
  }

  /** The answer to a request that is not redirected: its CGI's, or the page of its status,
      which for 201 tells the upload path. */
  function OwnReply(y: Exchange, route: Option<Route>): Reply
    requires y.status == 201 ==> route.Some?
  {
    if y.cgi then Program else Page(y.status, if y.status == 201 then Some(route.value.uploadPath) else None)
  }

  lemma ReplyOnRoute(y: Exchange, route: Route, pages: map<int, string>, redirected: bool)
    requires pages.Keys == KNOWN_CODES
    requires if redirected then route.redirect.Some? && y.status == route.redirect.value.statusCode && !y.cgi
             else y.status in {OK, CREATED, BAD_REQUEST, NOT_FOUND, METHOD_NOT_ALLOWED, TOO_LARGE, SERVER_ERROR}
    ensures redirected ==> ReplyTo(y, Some(route), pages) == RedirectReply(route)
    ensures !redirected ==> ReplyTo(y, Some(route), pages) == OwnReply(y, Some(route))
  {
  }

  /** The request matched to its route, or to none, from the status that parsing has left. */
  ghost predicate RightReply(status: int, r: RequestData, servers: seq<ConfigRoundTrip.ServerTree>, disk: Disk,
      y: Exchange, reply: Reply)
    requires servers != [] && r.target != ""
  {
    if status == BAD_REQUEST then reply == NullRoute
    else if status == OK && RouteOf(r, servers).Some?
        && Redirected(r, RouteOf(r, servers).value, Selected(servers, r.headers).maxBodySize)
    then
      var route := RouteOf(r, servers).value;
      && y.status == route.redirect.value.statusCode && !y.cgi && reply == RedirectReply(route)
      && SearchEnds(y, r, route)
    else if status == OK && RouteOf(r, servers).Some? then
      && EndsAs(y, r, RouteOf(r, servers).value, Selected(servers, r.headers).maxBodySize, disk)
      && reply == OwnReply(y, RouteOf(r, servers))
    else
      y.status == (if status == OK then 404 else status) && !y.cgi && reply == Page(y.status, None)
  }

  lemma MatchedReply(status: int, r: RequestData, servers: seq<ConfigRoundTrip.ServerTree>, disk: Disk)
    requires servers != [] && Paged(servers) && r.target != ""
    requires status in {OK, BAD_REQUEST, METHOD_NOT_ALLOWED, EXPECTATION_FAILED, TEAPOT, VERSION_NOT_SUPPORTED}
    ensures match Matched(Begun(status), r, servers, disk)
            case Done(y, route, pages) =>
              && !(status == OK && RouteOf(r, servers).Some? && r.verb == "POST" && BodyLength(r).None?)
              && RightReply(status, r, servers, disk, y, ReplyTo(y, route, pages))
            case Fails(failure) =>
              failure == Throws && status == OK && RouteOf(r, servers).Some? && r.verb == "POST" && BodyLength(r).None?
  {
    SelectedIsOne(servers, r.headers);
    var m := MatchingFor(servers, status, r.headers, r.target);
    var handled := Handled(Begun(m.status), r, m.route, m.maxBodySize, disk);
    if m.route.Some? && handled.Some? {
      HandledStatus(Begun(OK), r, m.route.value, m.maxBodySize, disk);
      EndExactly(Begun(OK), r, m.route.value, m.maxBodySize, disk);
      ReplyOnRoute(handled.value, m.route.value, m.errorFiles, Redirected(r, m.route.value, m.maxBodySize));
    }
  }

  /** The request is redirected with a code that is not in the table. */
  ghost predicate RedirectedAstray(r: RequestData, servers: seq<ConfigRoundTrip.ServerTree>)
    requires servers != [] && r.target != ""
  {
    && RouteOf(r, servers).Some?
    && Redirected(r, RouteOf(r, servers).value, Selected(servers, r.headers).maxBodySize)
    && RouteOf(r, servers).value.redirect.value.statusCode !in KNOWN_CODES
  }

  lemma FailureByStatus(status: int, r: RequestData, servers: seq<ConfigRoundTrip.ServerTree>, disk: Disk)
    requires servers != [] && Paged(servers) && r.target != ""
    requires status in {OK, BAD_REQUEST, METHOD_NOT_ALLOWED, EXPECTATION_FAILED, TEAPOT, VERSION_NOT_SUPPORTED}
    ensures match Matched(Begun(status), r, servers, disk)
            case Done(y, route, pages) =>
              var reply := ReplyTo(y, route, pages);
              && (reply == NullRoute <==> status == BAD_REQUEST)
              && (reply == NoReason <==> status == OK && RedirectedAstray(r, servers))
              && reply != NullRedirect
            case Fails(_) => true
  {
    MatchedReply(status, r, servers, disk);
  }

  /** Whatever the bytes, a parsed request whose route does not throw is answered through a
      route that is not there exactly when parsing finds more than one dot in its path, no Host,
      or no method or version; and without a reason phrase exactly when it is accepted and its
      route redirects it with a code that is not in the table. No redirect is read that is not
      there. */
  lemma ResponseFailsExactly(r: RequestData, uninitialised: int, servers: seq<ConfigRoundTrip.ServerTree>, disk: Disk)
    requires r.status == OK && r.target == "/" && Parse(r, uninitialised).Parsed? && servers != [] && Paged(servers)
    ensures var q := Parse(r, uninitialised).request;
            var dots := Count(RawPath(r), '.');
            match Matched(Begun(q.status), q, servers, disk)
            case Done(y, route, pages) =>
              var reply := ReplyTo(y, route, pages);
              && (reply == NullRoute <==> dots > 1 || "Host" !in q.headers || q.verb == "" || q.version == "")
              && (reply == NoReason <==>
                    dots <= 1 && AcceptedFields(q.verb, q.version, q.headers) && RedirectedAstray(q, servers))
              && reply != NullRedirect
            case Fails(_) => true
  {
    var q := Parse(r, uninitialised).request;
    ParsedStatuses(r, uninitialised);
    RefusedRequests(r, uninitialised);
    AcceptedRequests(r, uninitialised);
    if q.target != "" {
      FailureByStatus(q.status, q, servers, disk);
    }
  }

  /** How a request with a target fares from the status that parsing has left. */
  ghost predicate RightFate(status: int, r: RequestData, servers: seq<ConfigRoundTrip.ServerTree>, disk: Disk,
      fate: Fate)
    requires servers != [] && r.target != ""
  {
    if status == OK && RouteOf(r, servers).Some? && r.verb == "POST" && BodyLength(r).None? then fate.Raises?
    else fate.Ready? && RightReply(status, r, servers, disk, fate.exchange, fate.reply)
  }

  lemma MatchedFate(status: int, r: RequestData, servers: seq<ConfigRoundTrip.ServerTree>, disk: Disk)
    requires servers != [] && Paged(servers) && r.target != ""
    requires status in {OK, BAD_REQUEST, METHOD_NOT_ALLOWED, EXPECTATION_FAILED, TEAPOT, VERSION_NOT_SUPPORTED}
    ensures RightFate(status, r, servers, disk, FateOfMatching(Matched(Begun(status), r, servers, disk)))
  {
    MatchedReply(status, r, servers, disk);
  }

  lemma FateFromTheWire(w: WireRequest, uninitialised: int, servers: seq<ConfigRoundTrip.ServerTree>, disk: Disk)
    requires WellFormed(w) && servers != [] && Paged(servers) && BodyOf(w, uninitialised).Some?
    ensures var r := AsWritten(w, BodyOf(w, uninitialised).value);
            var fate := FateOf(Text(w), uninitialised, servers, disk);
            if r.target == "" then fate == Strays else RightFate(StatusOf(w, uninitialised), r, servers, disk, fate)
  {
    var r := AsWritten(w, BodyOf(w, uninitialised).value);
    FateAsWritten(w, uninitialised, servers, disk);
    StatusAsWritten(w, uninitialised);
    if r.target != "" {
      MatchedFate(StatusOf(w, uninitialised), r, servers, disk);
    }
  }

  /** The status that parsing leaves, told from what is written. */
  function WireStatus(w: WireRequest): int
    requires w.url != ""
  {
    StatusFor(Count(PathOf(WithoutSlash(w.url)), '.'), w.verb, w.version, InsertAll(map[], w.fields))
  }

  lemma WireStatusIsParsed(w: WireRequest, uninitialised: int)
    requires WellFormed(w) && BodyOf(w, uninitialised).Some?
    ensures StatusOf(w, uninitialised) == WireStatus(w)
  {
    ParsesUnlessEndless(w, uninitialised);
    ParsedAsWritten(w, uninitialised);
  }

  /** Every way in which a well-formed request fares. Its chunked body does not end; its path
      names a file without a slash in front; it is a POST with a Content-Length that is no int
      and there is a route for it; it is left at 400 and answered through a route never set;
      its route redirects it, which answers it as the code tells; it ends behind its route and
      gets that status' page or its CGI's answer; it has no route and gets the 404 page; or it
      gets the page of what is wrong with it. */
  lemma RepliesExactly(w: WireRequest, uninitialised: int, servers: seq<ConfigRoundTrip.ServerTree>, disk: Disk)
    requires WellFormed(w) && servers != [] && Paged(servers)
    ensures var fate := FateOf(Text(w), uninitialised, servers, disk);
            var body := BodyOf(w, uninitialised);
            if body.None? then fate.Hangs?
            else
              var r := AsWritten(w, body.value);
              if r.target == "" then fate.Strays?
              else if AcceptedWire(w) && RouteOf(r, servers).Some? && w.verb == "POST"
                  && BodyLength(r).None? then fate.Raises?
              else if RefusedWire(w) then fate.Ready? && fate.reply == NullRoute
              else if AcceptedWire(w) && RouteOf(r, servers).Some?
                  && Redirected(r, RouteOf(r, servers).value, Selected(servers, r.headers).maxBodySize)
              then
                && fate.Ready? && fate.reply == RedirectReply(RouteOf(r, servers).value)
                && SearchEnds(fate.exchange, r, RouteOf(r, servers).value)
              else if AcceptedWire(w) && RouteOf(r, servers).Some? then
                && fate.Ready?
                && EndsAs(fate.exchange, r, RouteOf(r, servers).value, Selected(servers, r.headers).maxBodySize, disk)
                && fate.reply == OwnReply(fate.exchange, RouteOf(r, servers))
              else if AcceptedWire(w) then fate.Ready? && fate.reply == Page(404, None)
              else fate.Ready? && fate.reply == Page(WireStatus(w), None)
  {
    if BodyOf(w, uninitialised).None? {
      EndlessHangs(w, uninitialised, servers, disk);
    } else {
      FateFromTheWire(w, uninitialised, servers, disk);
      StatusAsWritten(w, uninitialised);
      WireStatusIsParsed(w, uninitialised);
    }
  }
}
