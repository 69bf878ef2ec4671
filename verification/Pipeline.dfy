/** The status pipeline of a connection: route match, body size, route checks, handlers, and
    the choice of what is sent. */
module Pipeline {
  import opened CppStrings
  import opened Numbers
  import opened ConfigMachine
  import opened RequestSpec
  import opened RequestModel
  import opened Routing
  import ConfigRoundTrip

  const CREATED := 201
  const NO_CONTENT := 204
  const MULTIPLE_CHOICES := 300
  const TOO_LARGE := 413
  const SERVER_ERROR := 500
  const MEGABYTE := 1000000

  /** What the file system answers: which paths can be opened for reading, opened for
      updating, created for writing, and removed. */
  datatype Disk = Disk(
    readable: set<string>, updatable: set<string>, creatable: set<string>, removable: set<string>)

  datatype Effect = Upload(path: string, body: string) | Delete(path: string)

  /** What the stages work on; `effects` lists what was done to the file system. */
  datatype Exchange = Exchange(status: int, cgi: bool, autoIndex: bool, fileSearch: string, effects: seq<Effect>)

  // The stages.

  /** The 32-bit length of the body; None when the Content-Length is no int. */
  function BodyLength(r: RequestData): Option<int> {
    if "Content-Length" in r.headers then
      match ExtractInt(r.headers["Content-Length"], 10)
      case Extracted(v) => Some(v % UINT32_RANGE)
      case _ => None
    else Some(|r.body| % UINT32_RANGE)
  }

  /** The 32-bit comparison against a limit in megabytes. */
  predicate ExceedsLimit(length: int, limit: int) {
    length > (limit * MEGABYTE) % UINT32_RANGE
  }

  function SizeChecked(x: Exchange, length: int, limit: int): Exchange {
    if ExceedsLimit(length, limit) then x.(status := TOO_LARGE) else x
  }

  function MethodChecked(x: Exchange, r: RequestData, route: Route): Exchange {
    if x.status == OK && r.verb !in route.acceptedMethods then x.(status := METHOD_NOT_ALLOWED) else x
  }

  function RedirectChecked(x: Exchange, route: Route): Exchange {
    if x.status == OK && route.redirect.Some? then x.(status := route.redirect.value.statusCode) else x
  }

  predicate SomeReadable(disk: Disk, directory: string, files: seq<string>) {
    exists i :: 0 <= i < |files| && directory + files[i] in disk.readable
  }

  function FileChecked(x: Exchange, r: RequestData, route: Route, disk: Disk): Exchange {
    var y := x.(fileSearch := route.fileSearchPath);
    if x.status != OK then y
    else if r.filename == "" then
      if SomeReadable(disk, route.fileSearchPath, route.indexFiles) then y else y.(status := NOT_FOUND)
    else if Find(r.filename, '.') != NPOS && r.filename[Find(r.filename, '.')..] in route.cgiExtensions
        && r.verb == "GET" then
      y.(cgi := true)
    else if route.fileSearchPath + r.filename in disk.readable then y else y.(status := NOT_FOUND)
  }

  function RouteChecked(x: Exchange, r: RequestData, route: Route, disk: Disk): Exchange {
    var y := RedirectChecked(MethodChecked(x, r, route), route);
    var z := if route.autoIndex then y.(autoIndex := true) else y;
    if r.verb == "GET" then FileChecked(z, r, route, disk) else z
  }

  /** Where an upload goes; None when neither a name nor a content type tells. */
  function UploadTarget(r: RequestData, route: Route): Option<string> {
    if r.filename != "" then Some(route.uploadPath + r.filename)
    else if "Content-Type" in r.headers then Some(route.uploadPath + "test." + Past(r.headers["Content-Type"], '/'))
    else None
  }

  function Posted(x: Exchange, r: RequestData, route: Route, disk: Disk): Exchange {
    match UploadTarget(r, route)
    case None => x.(status := BAD_REQUEST)
    case Some(path) =>
      if path in disk.creatable then x.(status := CREATED, effects := x.effects + [Upload(path, r.body)]) else x
  }

  function Deleted(x: Exchange, r: RequestData, route: Route, disk: Disk): Exchange {
    var path := route.fileSearchPath + r.filename;
    if r.filename == "" then x.(status := BAD_REQUEST)
    else if path !in disk.updatable then x.(status := NOT_FOUND)
    else if path !in disk.removable then x.(status := SERVER_ERROR)
    else x.(effects := x.effects + [Delete(path)])
  }

  function MethodHandled(x: Exchange, r: RequestData, route: Route, disk: Disk): Exchange {
    if x.status != OK then x
    else if r.verb == "POST" then Posted(x, r, route, disk)
    else if r.verb == "DELETE" then Deleted(x, r, route, disk)
    else x
  }

  /** Everything between the route match and the response. None is the exception that an
      unreadable Content-Length raises. */
  function Handled(x: Exchange, r: RequestData, route: Option<Route>, limit: int, disk: Disk): Option<Exchange> {
    if route.None? || x.status != OK then Some(x)
    else if r.verb == "POST" then
      match BodyLength(r)
      case None => None
      case Some(length) => Some(MethodHandled(RouteChecked(SizeChecked(x, length, limit), r, route.value, disk), r,
          route.value, disk))
    else Some(MethodHandled(RouteChecked(x, r, route.value, disk), r, route.value, disk))
  }

  /** An exception that leaves the thread, or reading before the start of an empty target. */
  datatype Failure = Throws | EmptyTarget

  /** How the work between parsing and the response ends; `route` is the route that was set,
      `pages` the table of status codes the response is built from. */
  datatype Handling =
    | Done(exchange: Exchange, route: Option<Route>, pages: map<int, string>)
    | Fails(failure: Failure)

  const DEFAULT_PAGES: map<int, string> := NewServer().errorFiles

  /** Matching the route and everything behind it. */
  function Matched(x: Exchange, r: RequestData, servers: seq<ConfigRoundTrip.ServerTree>, disk: Disk): Handling
    requires servers != []
  {
    if r.target == "" then Fails(EmptyTarget)
    else
      var m := MatchingFor(servers, x.status, r.headers, r.target);
      match Handled(x.(status := m.status), r, m.route, m.maxBodySize, disk)
      case Some(y) => Done(y, m.route, if m.route.Some? then m.errorFiles else DEFAULT_PAGES)
      case None => Fails(Throws)
  }

  // The response.

  /** What comes of sending the response: a CGI program answers instead, nothing is sent, a
      page is sent, with a Location for some codes, or building the page fails: the route or
      its redirect is read though there is none, or the table has no reason for the status. */
  datatype Reply = Program | Silence | Page(status: int, location: Option<string>) | NullRoute | NullRedirect | NoReason

  /** A status with a page of its own is answered without the route. */
  predicate HasOwnPage(status: int) {
    NOT_FOUND <= status <= VERSION_NOT_SUPPORTED
  }

  predicate IsRedirection(status: int) {
    MULTIPLE_CHOICES <= status < BAD_REQUEST
  }

  function LocationFor(status: int, route: Option<Route>): Option<string>
    requires route.Some? || HasOwnPage(status)
    requires IsRedirection(status) ==> route.value.redirect.Some?
  {
    if status == CREATED then Some(route.value.uploadPath)
    else if IsRedirection(status) then Some("http://" + route.value.redirect.value.url)
    else None
  }

  function ReplyFor(status: int, route: Option<Route>, pages: map<int, string>): Reply {
    if status == NO_CONTENT then Silence
    else if !HasOwnPage(status) && route.None? then NullRoute
    else if status !in pages then NoReason
    else if IsRedirection(status) && route.value.redirect.None? then NullRedirect
    else Page(status, LocationFor(status, route))
  }

  function ReplyTo(x: Exchange, route: Option<Route>, pages: map<int, string>): Reply {
    if x.cgi then Program else ReplyFor(x.status, route, pages)
  }

  /** What becomes of a request: its reply, or it is lost in an exception, in a decoder that
      never returns, or in a read outside of a string. */
  datatype Fate = Ready(exchange: Exchange, reply: Reply) | Raises | Hangs | Strays

  function FateOf(text: string, uninitialised: int, servers: seq<ConfigRoundTrip.ServerTree>, disk: Disk): Fate
    requires servers != []
  {
    FateOfOutcome(RequestSpec.Parse(Unparsed(text), uninitialised), servers, disk)
  }

  function FateOfOutcome(outcome: RequestSpec.Outcome, servers: seq<ConfigRoundTrip.ServerTree>, disk: Disk): Fate
    requires servers != []
  {
    match outcome
    case OutOfRange => Raises
    case Spins => Hangs
    case Parsed(q) => FateOfMatching(Matched(Begun(q.status), q, servers, disk))
  }

  function FateOfMatching(h: Handling): Fate {
    match h
    case Done(y, route, pages) => Ready(y, ReplyTo(y, route, pages))
    case Fails(Throws) => Raises
    case Fails(EmptyTarget) => Strays
  }

  /** The exchange with which a parsed request meets the route match. */
  function Begun(status: int): Exchange {
    Exchange(status, false, false, "", [])
  }

  // The connection.

  class Connection {
    const request: Request
    var route: Option<Route>
    var errorFiles: map<int, string>
    var cgi: bool
    var autoIndex: bool
    var fileSearch: string
    var effects: seq<Effect>

    ghost function View(): Exchange
      reads this, request
    {
      Exchange(request.status, cgi, autoIndex, fileSearch, effects)
    }

    constructor (request: Request)
      ensures this.request == request && View() == Exchange(request.status, false, false, "", []) && route == None
    {
      this.request := request;
      route, errorFiles, cgi, autoIndex, fileSearch, effects := None, map[], false, false, "", [];
    }

    /** `ok` is false when converting the Content-Length throws. */
    method CheckBodySize(maxSize: int) returns (ok: bool)
      modifies request`status
      ensures ok <==> BodyLength(old(request.View())).Some?
      ensures ok ==> View() == SizeChecked(old(View()), BodyLength(old(request.View())).value, maxSize)
    {
      var length;
      if "Content-Length" in request.headers {
        var extraction := ExtractInt(request.headers["Content-Length"], 10);
        if !extraction.Extracted? {
          return false;
        }
        length := extraction.value % UINT32_RANGE;
      } else {
        length := |request.body| % UINT32_RANGE;
      }
      if length > (maxSize * MEGABYTE) % UINT32_RANGE {
        request.status := TOO_LARGE;
      }
      return true;
    }

    method CheckAcceptedMethods()
      requires route.Some?
      modifies request`status
      ensures View() == MethodChecked(old(View()), old(request.View()), route.value)
    {
      if request.status == OK {
        var i := 0;
        while i < |route.value.acceptedMethods|
          invariant 0 <= i <= |route.value.acceptedMethods|
          invariant request.verb !in route.value.acceptedMethods[..i]
          invariant View() == old(View())
        {
          if route.value.acceptedMethods[i] == request.verb {
            return;
          }
          i := i + 1;
        }
        request.status := METHOD_NOT_ALLOWED;
      }
    }

    method CheckRedirects()
      requires route.Some?
      modifies request`status
      ensures View() == RedirectChecked(old(View()), route.value)
    {
      if request.status == OK {
        if route.value.redirect.Some? {
          request.status := route.value.redirect.value.statusCode;
        }
      }
    }

    method SearchFile(disk: Disk)
      requires route.Some?
      modifies request`status
      ensures request.status == if route.value.fileSearchPath + request.filename in disk.readable then OK else NOT_FOUND
    {
      if route.value.fileSearchPath + request.filename in disk.readable {
        request.status := OK;
      } else {
        request.status := NOT_FOUND;
      }
    }

    method SearchDefaultIndexPages(disk: Disk)
      requires route.Some?
      modifies request`status
      ensures request.status == if SomeReadable(disk, fileSearch, route.value.indexFiles) then OK else NOT_FOUND
    {
      var i := 0;
      while i < |route.value.indexFiles|
        invariant 0 <= i <= |route.value.indexFiles|
        invariant forall j :: 0 <= j < i ==> fileSearch + route.value.indexFiles[j] !in disk.readable
      {
        if fileSearch + route.value.indexFiles[i] in disk.readable {
          request.status := OK;
          return;
        }
        i := i + 1;
      }
      request.status := NOT_FOUND;
    }

    /** A file name with a dot, as parsing always leaves it. */
    method SearchCgiExtensions() returns (found: bool)
      requires route.Some? && Find(request.filename, '.') != NPOS
      modifies this`cgi, request`status
      ensures var listed := request.filename[Find(request.filename, '.')..] in route.value.cgiExtensions;
              && found == (listed && request.verb == "GET") && cgi == (old(cgi) || found)
              && request.status == if listed then OK else NOT_FOUND
    {
      var extension := request.filename[Find(request.filename, '.')..];
      var i := 0;
      while i < |route.value.cgiExtensions|
        invariant 0 <= i <= |route.value.cgiExtensions|
        invariant extension !in route.value.cgiExtensions[..i]
      {
        if extension == route.value.cgiExtensions[i] {
          request.status := OK;
          if request.verb != "GET" {
            return false;
          }
          cgi := true;
          return true;
        }
        i := i + 1;
      }
      request.status := NOT_FOUND;
      return false;
    }

    method CheckFileSearchPath(disk: Disk)
      requires route.Some? && (request.filename == "" || Find(request.filename, '.') != NPOS)
      modifies this`cgi, this`fileSearch, request`status
      ensures View() == FileChecked(old(View()), old(request.View()), route.value, disk)
    {
      fileSearch := route.value.fileSearchPath;
      if request.status == OK {
        if request.filename == "" {
          SearchDefaultIndexPages(disk);
        } else {
          var found := SearchCgiExtensions();
          if !found {
            SearchFile(disk);
          }
        }
      }
    }

    method CheckRoute(disk: Disk)
      requires route.Some? && (request.filename == "" || Find(request.filename, '.') != NPOS)
      modifies this`cgi, this`autoIndex, this`fileSearch, request`status
      ensures View() == RouteChecked(old(View()), old(request.View()), route.value, disk)
    {
      CheckAcceptedMethods();
      CheckRedirects();
      if route.value.autoIndex {
        autoIndex := true;
      }
      if request.verb == "GET" {
        CheckFileSearchPath(disk);
      }
    }

    method PostHandler(disk: Disk) returns (done: bool)
      requires route.Some?
      modifies this`effects, request`status
      ensures var after := if done then View().(status := CREATED) else View();
              after == Posted(old(View()), old(request.View()), route.value, disk)
    {
      var path;
      if request.filename != "" {
        path := route.value.uploadPath + request.filename;
      } else if "Content-Type" in request.headers {
        path := route.value.uploadPath + "test." + Past(request.headers["Content-Type"], '/');
      } else {
        request.status := BAD_REQUEST;
        return false;
      }
      if path !in disk.creatable {
        return false;
      }
      effects := effects + [Upload(path, request.body)];
      return true;
    }

    method DeleteHandler(disk: Disk) returns (done: bool)
      requires route.Some? && request.status == OK
      modifies this`effects, request`status
      ensures View() == Deleted(old(View()), old(request.View()), route.value, disk)
      ensures done ==> request.status == OK
    {
      var path := route.value.fileSearchPath + request.filename;
      if request.filename == "" {
        request.status := BAD_REQUEST;
        return false;
      }
      if path !in disk.updatable {
        request.status := NOT_FOUND;
        return false;
      }
      if path !in disk.removable {
        request.status := SERVER_ERROR;
        return false;
      }
      effects := effects + [Delete(path)];
      return true;
    }

    method MethodHandler(disk: Disk)
      requires route.Some?
      modifies this`effects, request`status
      ensures View() == MethodHandled(old(View()), old(request.View()), route.value, disk)
    {
      if request.status == OK {
        if request.verb == "POST" {
          var done := PostHandler(disk);
          if done {
            request.status := CREATED;
          }
        } else if request.verb == "DELETE" {
          var done := DeleteHandler(disk);
          if done {
            request.status := OK;
          }
        }
      }
    }

    /** The stages behind the route match. */
    method RunStages(limit: int, disk: Disk) returns (ok: bool)
      requires route.Some? && request.status == OK
      requires request.filename == "" || Find(request.filename, '.') != NPOS
      modifies this`cgi, this`autoIndex, this`fileSearch, this`effects, request`status
      ensures var handled := Handled(old(View()), old(request.View()), route, limit, disk);
              && (ok <==> handled.Some?)
              && (ok ==> View() == handled.value)
    {
      if request.verb == "POST" {
        ok := CheckBodySize(limit);
        if !ok {
          return;
        }
      }
      CheckRoute(disk);
      MethodHandler(disk);
      ok := true;
    }

    /** Matching the route and running the stages behind it. */
    method MatchRoute(ports: PortConfig, disk: Disk) returns (failure: Option<Failure>)
      requires ports.servers != []
      requires request.filename == "" || Find(request.filename, '.') != NPOS
      modifies this, request`status
      ensures match Matched(old(View()), old(request.View()), ports.servers, disk)
              case Done(y, matched, pages) =>
                && failure == None && View() == y && route == (if matched.Some? then matched else old(route))
                && errorFiles == pages
              case Fails(f) => failure == Some(f)
    {
      var defined, matched, files, limit := ports.GetMatchingRoute(request);
      if !defined {
        return Some(EmptyTarget);
      }
      if matched.Some? {
        if request.status == OK {
          route := matched;
          errorFiles := files;
          var ok := RunStages(limit, disk);
          if !ok {
            return Some(Throws);
          }
        }
      } else {
        errorFiles := DEFAULT_PAGES;
      }
      return None;
    }

    /** Choosing the response and building its start line and its Location. */
    method SendResponse() returns (reply: Reply)
      ensures reply == ReplyFor(request.status, route, errorFiles)
    {
      var status := request.status;
      if status == NO_CONTENT {
        return Silence;
      }
      var copy: Option<Route> := None;
      if !(NOT_FOUND <= status <= VERSION_NOT_SUPPORTED) {
        if route.None? {
          return NullRoute;
        }
        copy := route;
      }
      if status !in errorFiles {
        return NoReason;
      }
      var location := None;
      if status == CREATED || (MULTIPLE_CHOICES <= status && status < BAD_REQUEST) {
        if status == CREATED {
          location := Some(copy.value.uploadPath);
        } else {
          if copy.value.redirect.None? {
            return NullRedirect;
          }
          location := Some("http://" + copy.value.redirect.value.url);
        }
      }
      return Page(status, location);
    }
  }
}
