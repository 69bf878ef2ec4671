/** What the status pipeline guarantees, stage by stage and from the bytes of a request on. */
module PipelineSafety {
  import opened CppStrings
  import opened Numbers
  import opened ConfigMachine
  import opened RequestSpec
  import opened Pipeline
  import opened Routing
  import opened RequestRoundTrip
  import Chunked
  import ConfigRoundTrip

  // The stages one after the other.

  const STAGES := 6

  /** Stage `n` behind the route match; None is an exception. */
  function Stage(n: nat, x: Exchange, r: RequestData, route: Route, limit: int, disk: Disk): Option<Exchange> {
    match n
    case 0 =>
      if r.verb != "POST" then Some(x)
      else (match BodyLength(r) case None => None case Some(length) => Some(SizeChecked(x, length, limit)))
    case 1 => Some(MethodChecked(x, r, route))
    case 2 => Some(RedirectChecked(x, route))
    case 3 => Some(if route.autoIndex then x.(autoIndex := true) else x)
    case 4 => Some(if r.verb == "GET" then FileChecked(x, r, route, disk) else x)
    case _ => Some(MethodHandled(x, r, route, disk))
  }

  /** The exchange after the first `n` stages. */
  function After(n: nat, x: Exchange, r: RequestData, route: Route, limit: int, disk: Disk): Option<Exchange> {
    if n == 0 then Some(x)
    else match After(n - 1, x, r, route, limit, disk)
      case None => None
      case Some(y) => Stage(n - 1, y, r, route, limit, disk)
  }

  lemma StagesAreThePipeline(x: Exchange, r: RequestData, route: Route, limit: int, disk: Disk)
    requires x.status == OK
    ensures After(STAGES, x, r, route, limit, disk) == Handled(x, r, Some(route), limit, disk)
  {
    assert After(1, x, r, route, limit, disk) == Stage(0, x, r, route, limit, disk);
    if After(1, x, r, route, limit, disk).Some? {
      var y1 := After(1, x, r, route, limit, disk).value;
      var y2 := MethodChecked(y1, r, route);
      var y3 := RedirectChecked(y2, route);
      var y4 := if route.autoIndex then y3.(autoIndex := true) else y3;
      assert After(2, x, r, route, limit, disk) == Some(y2);
      assert After(3, x, r, route, limit, disk) == Some(y3);
      assert After(4, x, r, route, limit, disk) == Some(y4);
      assert After(5, x, r, route, limit, disk) == Some(RouteChecked(y1, r, route, disk));
    } else {
      assert After(2, x, r, route, limit, disk) == None;
      assert After(3, x, r, route, limit, disk) == None;
      assert After(4, x, r, route, limit, disk) == None;
      assert After(5, x, r, route, limit, disk) == None;
    }
  }

  /** What may not be touched once the status is not OK. */
  ghost predicate Settled(x: Exchange, y: Exchange) {
    y.status == x.status && y.effects == x.effects && y.cgi == x.cgi
  }

  /** From the first stage on that leaves a status other than 200, nothing that follows changes
      the status, asks for a CGI or writes to the file system. */
  lemma {:induction false} NothingAfterTrouble(m: nat, n: nat, x: Exchange, r: RequestData, route: Route, limit: int,
      disk: Disk)
    requires x.status == OK && m <= n
    requires After(m, x, r, route, limit, disk).Some? && After(m, x, r, route, limit, disk).value.status != OK
    ensures After(n, x, r, route, limit, disk).Some?
    ensures Settled(After(m, x, r, route, limit, disk).value, After(n, x, r, route, limit, disk).value)
    decreases n
  {
    if m < n {
      NothingAfterTrouble(m, n - 1, x, r, route, limit, disk);
    }
  }

  /** Parsing never turns a status other than OK back into OK. */
  lemma TroubleStaysInParse(r: RequestData, uninitialised: int)
    requires r.status != OK && Parse(r, uninitialised).Parsed?
    ensures Parse(r, uninitialised).request.status != OK
  {
    var started := WithStartLine(r).request;
    StatusAfterHeaders(started);
    assert started.status != OK;
    CheckedAccepts(WithDecodedBody(WithHeaders(started), uninitialised).request);
  }

  // What happens to the file system.

  /** Whether the checks in front of the handlers let a request through. */
  ghost predicate Admitted(r: RequestData, route: Route, limit: int) {
    && r.verb in route.acceptedMethods
    && (route.redirect.Some? ==> route.redirect.value.statusCode == OK)
    && (r.verb == "POST" ==> BodyLength(r).Some? && !ExceedsLimit(BodyLength(r).value, limit))
  }

  /** Where an upload goes: the named file in the upload directory, or else "test." with what
      stands behind the first slash of the content type, or the whole of it without one. */
  ghost predicate IsUploadPath(r: RequestData, route: Route, path: string) {
    if r.filename != "" then path == route.uploadPath + r.filename
    else
      && "Content-Type" in r.headers
      && ((exists kind, subtype :: r.headers["Content-Type"] == kind + "/" + subtype && '/' !in kind
             && path == route.uploadPath + "test." + subtype)
          || ('/' !in r.headers["Content-Type"]
              && path == route.uploadPath + "test." + r.headers["Content-Type"]))
  }

  lemma UploadTargetExactly(r: RequestData, route: Route, path: string)
    ensures UploadTarget(r, route) == Some(path) <==> IsUploadPath(r, route, path)
    ensures UploadTarget(r, route).None? <==> r.filename == "" && "Content-Type" !in r.headers
  {
    if r.filename == "" && "Content-Type" in r.headers {
      SubtypeExactly(r.headers["Content-Type"]);
    }
  }

  lemma SubtypeExactly(value: string)
    ensures '/' !in value ==> Past(value, '/') == value
    ensures forall kind, subtype :: value == kind + "/" + subtype && '/' !in kind ==> Past(value, '/') == subtype
    ensures '/' in value ==> exists kind :: value == kind + "/" + Past(value, '/') && '/' !in kind
  {
    FindMeaning(value, '/');
    forall kind, subtype | value == kind + "/" + subtype && '/' !in kind
      ensures Past(value, '/') == subtype
    {
      CutAt(kind, '/', subtype);
    }
    if '/' in value {
      SplitAt(value, '/');
      assert value == Before(value, '/') + "/" + Past(value, '/');
    }
  }

  /** Whether the file system lets the handler of the request do its work. */
  ghost predicate DiskLets(r: RequestData, route: Route, disk: Disk) {
    || (r.verb == "POST" && exists path :: IsUploadPath(r, route, path) && path in disk.creatable)
    || (r.verb == "DELETE" && r.filename != ""
        && route.fileSearchPath + r.filename in disk.updatable && route.fileSearchPath + r.filename in disk.removable)
  }

  /** What the handler then does: a POST puts its body where the upload goes, a DELETE removes
      the named file. */
  ghost predicate IsEffectOf(effects: seq<Effect>, r: RequestData, route: Route) {
    if r.verb == "POST" then exists path :: IsUploadPath(r, route, path) && effects == [Upload(path, r.body)]
    else effects == [Delete(route.fileSearchPath + r.filename)]
  }

  /** Exactly when the file system is changed: an untroubled POST that is admitted and whose
      target can be created, or an untroubled DELETE that is admitted and whose file can be
      opened and removed. */
  lemma EffectsExactly(x: Exchange, r: RequestData, route: Option<Route>, limit: int, disk: Disk)
    requires x.effects == []
    ensures var y := Handled(x, r, route, limit, disk);
            y.Some? && y.value.effects != [] <==>
              x.status == OK && route.Some? && Admitted(r, route.value, limit) && DiskLets(r, route.value, disk)
    ensures var y := Handled(x, r, route, limit, disk);
            y.Some? && y.value.effects != [] ==> IsEffectOf(y.value.effects, r, route.value)
  {
    if route.Some? && x.status == OK && r.verb != "GET" {
      var z := if r.verb == "POST" && BodyLength(r).Some? then SizeChecked(x, BodyLength(r).value, limit) else x;
      CheckedUnlessGet(z, r, route.value, disk);
      HandlerEffects(RouteChecked(z, r, route.value, disk), r, route.value, disk);
    }
  }

  lemma HandlerEffects(x: Exchange, r: RequestData, route: Route, disk: Disk)
    requires x.effects == []
    ensures var y := MethodHandled(x, r, route, disk);
            && (y.effects != [] <==> x.status == OK && DiskLets(r, route, disk))
            && (y.effects != [] ==> IsEffectOf(y.effects, r, route))
  {
    forall path
      ensures UploadTarget(r, route) == Some(path) <==> IsUploadPath(r, route, path)
    {
      UploadTargetExactly(r, route, path);
    }
    if UploadTarget(r, route).Some? {
      assert IsUploadPath(r, route, UploadTarget(r, route).value);
    }
  }

  lemma CheckedUnlessGet(x: Exchange, r: RequestData, route: Route, disk: Disk)
    requires r.verb != "GET"
    ensures var y := RouteChecked(x, r, route, disk);
            && y.effects == x.effects
            && (y.status == OK <==> x.status == OK && r.verb in route.acceptedMethods
                                    && (route.redirect.Some? ==> route.redirect.value.statusCode == OK))
  {
  }

  /** A CGI run is asked for exactly for an untroubled, accepted GET without a redirect whose
      file has one of the route's CGI extensions. */
  lemma CgiExactly(x: Exchange, r: RequestData, route: Option<Route>, limit: int, disk: Disk)
    requires !x.cgi
    ensures var y := Handled(x, r, route, limit, disk);
            y.Some? && y.value.cgi <==>
              && x.status == OK && route.Some? && r.verb == "GET" && Admitted(r, route.value, limit)
              && r.filename != "" && Find(r.filename, '.') != NPOS
              && r.filename[Find(r.filename, '.')..] in route.value.cgiExtensions
  {
    if route.Some? && x.status == OK && r.verb != "GET" {
      var z := if r.verb == "POST" && BodyLength(r).Some? then SizeChecked(x, BodyLength(r).value, limit) else x;
      CgiOnlyForGet(z, r, route.value, disk);
    }
  }

  lemma CgiOnlyForGet(x: Exchange, r: RequestData, route: Route, disk: Disk)
    requires r.verb != "GET"
    ensures MethodHandled(RouteChecked(x, r, route, disk), r, route, disk).cgi == x.cgi
  {
  }

  // From the bytes on.

  /** The body a request delivers; None when its decoder never returns. */
  function BodyOf(w: WireRequest, uninitialised: int): Option<string> {
    if !IsChunked(InsertAll(map[], w.fields)) then Some(w.body)
    else match Chunked.Decode(w.body, uninitialised)
      case Decoded(body) => Some(body)
      case Spins => None
  }

  lemma ParsesUnlessEndless(w: WireRequest, uninitialised: int)
    requires WellFormed(w)
    ensures match BodyOf(w, uninitialised)
            case None => Parse(Unparsed(Text(w)), uninitialised).Spins?
            case Some(body) => Parse(Unparsed(Text(w)), uninitialised).Parsed?
                               && SameRequest(Parse(Unparsed(Text(w)), uninitialised).request, AsWritten(w, body))
  {
    ParsesExactly(w, uninitialised);
    if BodyOf(w, uninitialised).Some? {
      ParsedAsWritten(w, uninitialised);
    }
  }

  lemma ParsesExactly(w: WireRequest, uninitialised: int)
    requires WellFormed(w)
    ensures Parse(Unparsed(Text(w)), uninitialised).Spins? <==> BodyOf(w, uninitialised).None?
    ensures Parse(Unparsed(Text(w)), uninitialised).Parsed? <==> BodyOf(w, uninitialised).Some?
  {
    WholeRequestRoundTrip(w, uninitialised);
    BodyUnlessEndless(w, uninitialised);
  }

  lemma BodyUnlessEndless(w: WireRequest, uninitialised: int)
    ensures BodyOf(w, uninitialised).None?
            <==> IsChunked(InsertAll(map[], w.fields)) && Chunked.Decode(w.body, uninitialised).Spins?
  {
  }

  /** The route a request gets, when its fields and its path are accepted. */
  function RouteOf(r: RequestData, servers: seq<ConfigRoundTrip.ServerTree>): Option<Route>
    requires servers != [] && r.target != ""
  {
    FirstRoute(Selected(servers, r.headers).routes, StrippedTarget(r.target))
  }

  lemma SameStages(x: Exchange, q: RequestData, r: RequestData, route: Option<Route>, limit: int, disk: Disk)
    requires SameRequest(q, r)
    ensures Handled(x, q, route, limit, disk) == Handled(x, r, route, limit, disk)
  {
  }

  lemma SameMatching(x: Exchange, q: RequestData, r: RequestData, servers: seq<ConfigRoundTrip.ServerTree>, disk: Disk)
    requires servers != [] && SameRequest(q, r)
    ensures Matched(x, q, servers, disk) == Matched(x, r, servers, disk)
  {
    if q.target != "" {
      var m := MatchingFor(servers, x.status, r.headers, r.target);
      SameStages(x.(status := m.status), q, r, m.route, m.maxBodySize, disk);
    }
  }

  /** The status that parsing leaves. */
  function StatusOf(w: WireRequest, uninitialised: int): int {
    match Parse(Unparsed(Text(w)), uninitialised)
    case Parsed(q) => q.status
    case _ => OK
  }

  lemma FateAsWritten(w: WireRequest, uninitialised: int, servers: seq<ConfigRoundTrip.ServerTree>, disk: Disk)
    requires WellFormed(w) && servers != [] && BodyOf(w, uninitialised).Some?
    ensures var r := AsWritten(w, BodyOf(w, uninitialised).value);
            FateOf(Text(w), uninitialised, servers, disk)
            == FateOfMatching(Matched(Begun(StatusOf(w, uninitialised)), r, servers, disk))
  {
    ParsesUnlessEndless(w, uninitialised);
    var q := Parse(Unparsed(Text(w)), uninitialised).request;
    SameMatching(Begun(q.status), q, AsWritten(w, BodyOf(w, uninitialised).value), servers, disk);
  }

  lemma EndlessHangs(w: WireRequest, uninitialised: int, servers: seq<ConfigRoundTrip.ServerTree>, disk: Disk)
    requires WellFormed(w) && servers != [] && BodyOf(w, uninitialised).None?
    ensures FateOf(Text(w), uninitialised, servers, disk) == Hangs
  {
    ParsesUnlessEndless(w, uninitialised);
  }

  lemma StatusAsWritten(w: WireRequest, uninitialised: int)
    requires WellFormed(w) && BodyOf(w, uninitialised).Some?
    ensures StatusOf(w, uninitialised) == OK <==> AcceptedWire(w)
    ensures StatusOf(w, uninitialised) == BAD_REQUEST <==> RefusedWire(w)
    ensures StatusOf(w, uninitialised)
            in {OK, BAD_REQUEST, METHOD_NOT_ALLOWED, EXPECTATION_FAILED, TEAPOT, VERSION_NOT_SUPPORTED}
  {
    ParsesUnlessEndless(w, uninitialised);
    ParsedAsWritten(w, uninitialised);
    ParsedStatuses(Unparsed(Text(w)), uninitialised);
  }

  /** Whether a request that parsing has left at `status` changes the file system. */
  ghost predicate ChangesDisk(status: int, r: RequestData, servers: seq<ConfigRoundTrip.ServerTree>, disk: Disk)
    requires servers != []
  {
    && status == OK && r.target != "" && RouteOf(r, servers).Some?
    && Admitted(r, RouteOf(r, servers).value, Selected(servers, r.headers).maxBodySize)
    && DiskLets(r, RouteOf(r, servers).value, disk)
  }

  lemma MatchedEffects(status: int, r: RequestData, servers: seq<ConfigRoundTrip.ServerTree>, disk: Disk)
    requires servers != []
    ensures var fate := FateOfMatching(Matched(Begun(status), r, servers, disk));
            && (fate.Ready? && fate.exchange.effects != [] <==> ChangesDisk(status, r, servers, disk))
            && (fate.Ready? && fate.exchange.effects != []
                ==> IsEffectOf(fate.exchange.effects, r, RouteOf(r, servers).value))
  {
    if r.target != "" {
      var m := MatchingFor(servers, status, r.headers, r.target);
      EffectsExactly(Begun(m.status), r, m.route, m.maxBodySize, disk);
    }
  }

  /** From the bytes of a request to the file system: something is uploaded or deleted exactly
      when the body arrives, the fields and the path are accepted, the virtual host has a route
      for the target, and the route and the file system let the handler work. */
  lemma DiskChangesExactly(w: WireRequest, uninitialised: int, servers: seq<ConfigRoundTrip.ServerTree>, disk: Disk)
    requires WellFormed(w) && servers != []
    ensures var fate := FateOf(Text(w), uninitialised, servers, disk);
            var body := BodyOf(w, uninitialised);
            fate.Ready? && fate.exchange.effects != [] <==>
              && body.Some? && AcceptedWire(w)
              && var r := AsWritten(w, body.value);
                 && r.target != "" && RouteOf(r, servers).Some?
                 && Admitted(r, RouteOf(r, servers).value, Selected(servers, r.headers).maxBodySize)
                 && DiskLets(r, RouteOf(r, servers).value, disk)
    ensures var fate := FateOf(Text(w), uninitialised, servers, disk);
            fate.Ready? && fate.exchange.effects != [] ==>
              var r := AsWritten(w, BodyOf(w, uninitialised).value);
              IsEffectOf(fate.exchange.effects, r, RouteOf(r, servers).value)
  {
    if BodyOf(w, uninitialised).None? {
      EndlessHangs(w, uninitialised, servers, disk);
    } else {
      FateAsWritten(w, uninitialised, servers, disk);
      StatusAsWritten(w, uninitialised);
      MatchedEffects(StatusOf(w, uninitialised), AsWritten(w, BodyOf(w, uninitialised).value), servers, disk);
    }
  }

  /** A request in which parsing finds anything wrong keeps its status, gets no route and
      changes nothing; it is sent the page of its status, which at 400 needs the route. */
  lemma TroubleStaysToTheEnd(w: WireRequest, uninitialised: int, servers: seq<ConfigRoundTrip.ServerTree>, disk: Disk)
    requires WellFormed(w) && servers != [] && !AcceptedWire(w) && BodyOf(w, uninitialised).Some?
    ensures var status := StatusOf(w, uninitialised);
            && status != OK
            && FateOf(Text(w), uninitialised, servers, disk)
               == if AsWritten(w, w.body).target == "" then Strays
                  else Ready(Begun(status), if status == BAD_REQUEST then NullRoute else Page(status, None))
  {
    var r := AsWritten(w, BodyOf(w, uninitialised).value);
    StatusAsWritten(w, uninitialised);
    FateAsWritten(w, uninitialised, servers, disk);
    MatchedTrouble(StatusOf(w, uninitialised), r, servers, disk);
    assert r.target == AsWritten(w, w.body).target;
  }

  lemma MatchedTrouble(status: int, r: RequestData, servers: seq<ConfigRoundTrip.ServerTree>, disk: Disk)
    requires servers != [] && status != OK
    requires status in {BAD_REQUEST, METHOD_NOT_ALLOWED, EXPECTATION_FAILED, TEAPOT, VERSION_NOT_SUPPORTED}
    ensures FateOfMatching(Matched(Begun(status), r, servers, disk))
         == if r.target == "" then Strays
            else Ready(Begun(status), if status == BAD_REQUEST then NullRoute else Page(status, None))
  {
  }

  // The statuses parsing leaves, and the empty target.

  lemma ParsedStatuses(r: RequestData, uninitialised: int)
    requires r.status == OK && Parse(r, uninitialised).Parsed?
    ensures Parse(r, uninitialised).request.status
            in {OK, BAD_REQUEST, METHOD_NOT_ALLOWED, EXPECTATION_FAILED, TEAPOT, VERSION_NOT_SUPPORTED}
  {
    var started := WithStartLine(r).request;
    assert started.status in {OK, BAD_REQUEST};
    HostStatuses(started);
    var whole := WithDecodedBody(WithHeaders(started), uninitialised).request;
    assert whole.status == WithHeaders(started).status;
    CheckedStatuses(whole);
  }

  lemma HostStatuses(r: RequestData)
    ensures WithHeaders(r).status in {r.status, BAD_REQUEST}
  {
    var read := ReadFields(r.raw, r.headers);
    assert WithFields(r).status in {r.status, BAD_REQUEST};
  }

  lemma CheckedStatuses(r: RequestData)
    ensures Checked(r).status
            in {r.status, OK, BAD_REQUEST, METHOD_NOT_ALLOWED, EXPECTATION_FAILED, TEAPOT, VERSION_NOT_SUPPORTED}
  {
  }

  /** The target of a URL is empty exactly when its path names a file without a slash in front. */
  lemma EmptyTargetExactly(w: WireRequest, body: string)
    requires WellFormed(w)
    ensures var path := PathOf(WithoutSlash(w.url));
            AsWritten(w, body).target == "" <==> Count(path, '.') == 1 && '/' !in path[..FileEnd(path)]
  {
    var path := PathOf(WithoutSlash(w.url));
    if Count(path, '.') == 1 {
      FindLastOfMeaning(path[..FileEnd(path)], '/');
    }
  }

  // The body limit.

  /** The length a request declares, or has when it declares none. */
  function DeclaredLength(r: RequestData): Option<int> {
    if "Content-Length" in r.headers then
      match ExtractInt(r.headers["Content-Length"], 10)
      case Extracted(v) => Some(v)
      case _ => None
    else Some(|r.body|)
  }

  /** Comparing two integers modulo 2^32 is comparing them exactly when they wrap around
      equally often, or when the remainders are ordered like the numbers of turns. */
  lemma WrappedComparison(v: int, m: int)
    ensures (v % UINT32_RANGE > m % UINT32_RANGE <==> v > m) <==>
              || v / UINT32_RANGE == m / UINT32_RANGE
              || (v / UINT32_RANGE > m / UINT32_RANGE <==> v % UINT32_RANGE > m % UINT32_RANGE)
  {
    var W := UINT32_RANGE;
    assert v == (v / W) * W + v % W && m == (m / W) * W + m % W;
    if v / W > m / W {
      assert v / W >= m / W + 1;
      assert (v / W) * W >= (m / W) * W + W;
    } else if v / W < m / W {
      assert v / W + 1 <= m / W;
      assert (v / W) * W + W <= (m / W) * W;
    }
  }

  /** When the 32-bit comparison of a length with a limit in megabytes is the intended one. */
  predicate ComparesRightly(length: int, limit: int) {
    var wrapped := (limit * MEGABYTE) % UINT32_RANGE;
    if length < 0 then length + UINT32_RANGE <= wrapped
    else if length < UINT32_RANGE then limit <= 4294 || length <= wrapped
    else
      var turns, limitTurns := length / UINT32_RANGE, (limit * MEGABYTE) / UINT32_RANGE;
      turns == limitTurns || (turns > limitTurns <==> length % UINT32_RANGE > wrapped)
  }

  /** The size check refuses exactly the requests that exceed the limit, if and only if the
      length they declare, or have, compares rightly. */
  lemma LimitIsExact(r: RequestData, limit: int)
    requires DeclaredLength(r).Some? && 0 <= limit < UINT32_RANGE
    ensures BodyLength(r).Some?
    ensures (ExceedsLimit(BodyLength(r).value, limit) <==> DeclaredLength(r).value > limit * MEGABYTE)
            <==> ComparesRightly(DeclaredLength(r).value, limit)
  {
    var v, m := DeclaredLength(r).value, limit * MEGABYTE;
    WrappedComparison(v, m);
    if v < 0 {
      assert v >= INT_MIN;
      assert v / UINT32_RANGE == -1 && v % UINT32_RANGE == v + UINT32_RANGE;
    } else if v < UINT32_RANGE {
      assert v / UINT32_RANGE == 0 && v % UINT32_RANGE == v;
      LimitTurns(limit);
    }
  }

  lemma LimitTurns(limit: int)
    requires 0 <= limit < UINT32_RANGE
    ensures (limit * MEGABYTE) / UINT32_RANGE == 0 <==> limit <= 4294
    ensures (limit * MEGABYTE) / UINT32_RANGE >= 0
  {
    if limit <= 4294 {
      assert limit * MEGABYTE < UINT32_RANGE;
    } else {
      assert limit * MEGABYTE >= 4295 * MEGABYTE > UINT32_RANGE;
    }
  }

  /** A limit of 4295 megabytes refuses a body of one megabyte. */
  lemma LimitWrapsAround()
    ensures ExceedsLimit(1 * MEGABYTE, 4295) && !ComparesRightly(1 * MEGABYTE, 4295)
  {
  }

  /** A Content-Length of -1 is refused for being too large. */
  lemma NegativeLengthIsRefused(r: RequestData)
    requires "Content-Length" in r.headers && r.headers["Content-Length"] == "-1"
    ensures DeclaredLength(r) == Some(-1) && ExceedsLimit(BodyLength(r).value, 1) && !ComparesRightly(-1, 1)
  {
    var digits := "1";
    assert "-1"[1..] == digits;
    assert digits[1..] == "" && digits[..0] == "";
    assert DigitPrefix(digits, 10) == digits;
    assert Value(digits, 10) == 1;
  }

  /** A body of 2^32 bytes without a Content-Length passes a limit of one megabyte. */
  lemma WholeTurnIsAdmitted(r: RequestData)
    requires "Content-Length" !in r.headers && |r.body| == UINT32_RANGE
    ensures !ExceedsLimit(BodyLength(r).value, 1) && !ComparesRightly(|r.body|, 1)
  {
  }
}
