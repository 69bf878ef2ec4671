/** The poll loop meets the request pipeline: which requests stop it. */
module PollerRequests {
  import opened CppStrings
  import opened PollerState
  import opened PollerInvariant
  import opened PollerRounds
  import opened PollerOrphans
  import opened Pipeline
  import opened PipelineSafety
  import opened PipelineReplies
  import ConfigMachine
  import ConfigRoundTrip
  import PollerFatalRun
  import RequestRoundTrip
  import RequestSpec
  import Routing
  import Witnesses

  /** What parsing a request amounts to for the loop. */
  function ParseResultOf(outcome: RequestSpec.Outcome): ParseResult {
    match outcome
    case OutOfRange => ParseFails(Exception)
    case Spins => ParseFails(Endless)
    case Parsed(q) => ParsedTo(q.status, q.headers != map[])
  }

  function ResultOfMatching(h: Handling): RouteResult {
    match h
    case Done(_, None, _) => Unmatched
    case Done(y, Some(_), _) => Route(y.status, y.cgi)
    case Fails(Throws) => RouteFails(Exception)
    case Fails(EmptyTarget) => RouteFails(Undefined)
  }

  /** And what routing the parsed request does. */
  function RouteResultOf(outcome: RequestSpec.Outcome, servers: seq<ConfigRoundTrip.ServerTree>,
      disk: Disk): RouteResult
    requires servers != []
  {
    match outcome
    case Parsed(q) => ResultOfMatching(Matched(Begun(q.status), q, servers, disk))
    case _ => Unmatched
  }

  /** The answer holds the results that processing `text` has. */
  predicate Processes(a: Answer, text: string, uninitialised: int, servers: seq<ConfigRoundTrip.ServerTree>, disk: Disk)
    requires servers != []
  {
    var outcome := RequestSpec.Parse(RequestSpec.Unparsed(text), uninitialised);
    a.parse == ParseResultOf(outcome) && a.route == RouteResultOf(outcome, servers, disk)
  }

  /** A client that has sent `text`, from which nothing has been parsed. */
  predicate HasSent(c: Conn, text: string) {
    c.raw == text && !c.parsed && c.status == OK && !c.routed && !c.isCgi
  }

  function CauseOf(fate: Fate): Option<Cause> {
    match fate
    case Ready(_, NullRoute) => Some(NoRoute)
    case Ready(_, NoReason) => Some(Exception)
    case Ready(_, NullRedirect) => Some(Undefined)
    case Ready(_, _) => None
    case Raises => Some(Exception)
    case Hangs => Some(Endless)
    case Strays => Some(Undefined)
  }

  /** What matching depends on: the status that parsing has left and the table of codes. A
      redirection is answered only by a route that has a redirect. */
  ghost predicate FollowsFrom(h: Handling, status: int) {
    match h
    case Done(y, route, pages) =>
      && pages.Keys == ConfigMachine.KNOWN_CODES
      && (route.None? ==> !y.cgi && y.status == if status == OK then NOT_FOUND else status)
      && (route.Some? ==> status == OK && (IsRedirection(y.status) ==> route.value.redirect.Some?))
    case Fails(failure) => failure == Throws ==> status == OK
  }

  lemma MatchedFollows(status: int, q: RequestSpec.RequestData, servers: seq<ConfigRoundTrip.ServerTree>, disk: Disk)
    requires servers != [] && Paged(servers)
    ensures FollowsFrom(Matched(Begun(status), q, servers, disk), status)
  {
    if q.target != "" {
      SelectedIsOne(servers, q.headers);
      var m := Routing.MatchingFor(servers, status, q.headers, q.target);
      if m.route.Some? && Handled(Begun(OK), q, m.route, m.maxBodySize, disk).Some? {
        HandledStatus(Begun(OK), q, m.route.value, m.maxBodySize, disk);
      }
    }
  }

  lemma FatalAsMatching(c: Conn, a: Answer, text: string, status: int, headersRead: bool, h: Handling)
    requires text != "" && HasSent(c, text) && FollowsFrom(h, status)
    requires a.parse == ParsedTo(status, headersRead) && a.route == ResultOfMatching(h)
    ensures Fatal(c, a) == CauseOf(FateOfMatching(h))
  {
    var p := Parsed(c, a);
    assert p.status == status && !p.isCgi && !p.routed;
  }

  lemma FatalAsOutcome(c: Conn, a: Answer, text: string, outcome: RequestSpec.Outcome,
      servers: seq<ConfigRoundTrip.ServerTree>, disk: Disk)
    requires servers != [] && Paged(servers) && text != "" && HasSent(c, text)
    requires a.parse == ParseResultOf(outcome) && a.route == RouteResultOf(outcome, servers, disk)
    ensures Fatal(c, a) == CauseOf(FateOfOutcome(outcome, servers, disk))
  {
    if outcome.Parsed? {
      var q := outcome.request;
      MatchedFollows(q.status, q, servers, disk);
      FatalAsMatching(c, a, text, q.status, q.headers != map[], Matched(Begun(q.status), q, servers, disk));
    }
  }

  /** Serving a client fails in the loop exactly as its request fares in the pipeline. */
  lemma FatalAsFate(c: Conn, a: Answer, text: string, uninitialised: int, servers: seq<ConfigRoundTrip.ServerTree>,
      disk: Disk)
    requires servers != [] && Paged(servers) && text != "" && HasSent(c, text)
    requires Processes(a, text, uninitialised, servers, disk)
    ensures Fatal(c, a) == CauseOf(FateOf(text, uninitialised, servers, disk))
  {
    FatalAsOutcome(c, a, text, RequestSpec.Parse(RequestSpec.Unparsed(text), uninitialised), servers, disk);
  }

  /** A well-formed request that the loop cannot serve. */
  ghost predicate Unservable(w: RequestRoundTrip.WireRequest, uninitialised: int,
      servers: seq<ConfigRoundTrip.ServerTree>)
    requires RequestRoundTrip.WellFormed(w) && servers != []
  {
    var body := BodyOf(w, uninitialised);
    || body.None?
    || RequestRoundTrip.RefusedWire(w)
    || var r := RequestRoundTrip.AsWritten(w, body.value);
       || r.target == ""
       || (RequestRoundTrip.AcceptedWire(w) && RouteOf(r, servers).Some? && w.verb == "POST" && BodyLength(r).None?)
       || (RequestRoundTrip.AcceptedWire(w) && RedirectedAstray(r, servers))
  }

  lemma FailsByStatus(status: int, r: RequestSpec.RequestData, servers: seq<ConfigRoundTrip.ServerTree>,
      disk: Disk, fate: Fate)
    requires servers != [] && r.target != "" && RightFate(status, r, servers, disk, fate)
    ensures CauseOf(fate).Some? <==>
              || status == RequestSpec.BAD_REQUEST
              || (status == OK && RouteOf(r, servers).Some? && r.verb == "POST" && BodyLength(r).None?)
              || (status == OK && RedirectedAstray(r, servers))
  {
  }

  lemma FailsExactly(w: RequestRoundTrip.WireRequest, uninitialised: int, servers: seq<ConfigRoundTrip.ServerTree>,
      disk: Disk)
    requires RequestRoundTrip.WellFormed(w) && servers != [] && Paged(servers)
    ensures CauseOf(FateOf(RequestRoundTrip.Text(w), uninitialised, servers, disk)).Some?
            <==> Unservable(w, uninitialised, servers)
  {
    if BodyOf(w, uninitialised).None? {
      EndlessHangs(w, uninitialised, servers, disk);
    } else {
      FateFromTheWire(w, uninitialised, servers, disk);
      StatusAsWritten(w, uninitialised);
      FailsByWire(w, uninitialised, servers, disk, StatusOf(w, uninitialised),
          FateOf(RequestRoundTrip.Text(w), uninitialised, servers, disk));
    }
  }

  lemma FailsByWire(w: RequestRoundTrip.WireRequest, uninitialised: int, servers: seq<ConfigRoundTrip.ServerTree>,
      disk: Disk, status: int, fate: Fate)
    requires RequestRoundTrip.WellFormed(w) && servers != [] && BodyOf(w, uninitialised).Some?
    requires status == OK <==> RequestRoundTrip.AcceptedWire(w)
    requires status == RequestSpec.BAD_REQUEST <==> RequestRoundTrip.RefusedWire(w)
    requires var r := RequestRoundTrip.AsWritten(w, BodyOf(w, uninitialised).value);
             if r.target == "" then fate == Strays else RightFate(status, r, servers, disk, fate)
    ensures CauseOf(fate).Some? <==> Unservable(w, uninitialised, servers)
  {
    var r := RequestRoundTrip.AsWritten(w, BodyOf(w, uninitialised).value);
    if r.target != "" {
      FailsByStatus(status, r, servers, disk, fate);
    }
  }

  /** Which well-formed requests are served in vain: those with a chunked body that does not
      end, with more than one dot in the path, without a Host, with an empty method or version,
      with a path that names a file without a slash in front, those that post to a route with
      a Content-Length that is no int, and those whose route redirects them with a code that
      has no reason phrase. */
  lemma ServedInVainExactly(c: Conn, a: Answer, w: RequestRoundTrip.WireRequest, uninitialised: int,
      servers: seq<ConfigRoundTrip.ServerTree>, disk: Disk)
    requires RequestRoundTrip.WellFormed(w) && servers != [] && Paged(servers)
    requires HasSent(c, RequestRoundTrip.Text(w))
        && Processes(a, RequestRoundTrip.Text(w), uninitialised, servers, disk)
    ensures Fatal(c, a).Some? <==> Unservable(w, uninitialised, servers)
  {
    TextIsNotEmpty(w);
    FatalAsFate(c, a, RequestRoundTrip.Text(w), uninitialised, servers, disk);
    FailsExactly(w, uninitialised, servers, disk);
  }

  lemma TextIsNotEmpty(w: RequestRoundTrip.WireRequest)
    requires RequestRoundTrip.WellFormed(w)
    ensures RequestRoundTrip.Text(w) != ""
  {
    assert |RequestRoundTrip.Text(w)| >= |w.url| > 0;
  }

  /** Such a request stops the loop in the round in which its client is found writable. */
  lemma UnservableStopsTheLoop(s: State, answers: seq<Answer>, j: nat, w: RequestRoundTrip.WireRequest,
      uninitialised: int, servers: seq<ConfigRoundTrip.ServerTree>, disk: Disk)
    requires Inv(s) && |answers| == |s.pfds| && LegalRound(s, answers) && j < |s.pfds|
    requires RequestRoundTrip.WellFormed(w) && servers != [] && Paged(servers)
    requires Unservable(w, uninitialised, servers)
    requires s.pfds[j].fd in s.clients && HasSent(s.clients[s.pfds[j].fd], RequestRoundTrip.Text(w))
    requires answers[j].writable && !answers[j].readable && !answers[j].hangup
    requires Processes(answers[j], RequestRoundTrip.Text(w), uninitialised, servers, disk)
    ensures Round(s, answers).Dead?
  {
    ServedInVainExactly(s.clients[s.pfds[j].fd], answers[j], w, uninitialised, servers, disk);
    RoundDiesExactly(s, answers);
    assert CauseAt(s, j, answers[j]).Some?;
  }

  // The runs that stop the loop have the answers that their requests really get.

  lemma HostIsAHeader()
    ensures RequestRoundTrip.InsertAll(map[], [RequestRoundTrip.Field("Host", "x")]) != map[]
  {
    Witnesses.HostField();
    assert "Host" in RequestRoundTrip.InsertAll(map[], [RequestRoundTrip.Field("Host", "x")]);
  }

  /** How a GET with a Host and nothing else is processed. */
  lemma GetIsProcessed(url: string, a: Answer, uninitialised: int, servers: seq<ConfigRoundTrip.ServerTree>,
      disk: Disk)
    requires url != "" && ' ' !in url && servers != []
    requires var path := RequestRoundTrip.PathOf(RequestSpec.WithoutSlash(url));
             var status := if Count(path, '.') <= 1 then OK else RequestSpec.BAD_REQUEST;
             var r := RequestRoundTrip.AsWritten(Witnesses.Get(url), "");
             && a.parse == ParsedTo(status, true)
             && a.route == ResultOfMatching(Matched(Begun(status), r, servers, disk))
    ensures Processes(a, Witnesses.GetText(url), uninitialised, servers, disk)
  {
    var w := Witnesses.Get(url);
    Witnesses.GetIsWritten(url);
    Witnesses.GetIsWellFormed(url);
    Witnesses.GetIsNotChunked(url);
    Witnesses.GetIsAccepted(url);
    ParsesUnlessEndless(w, uninitialised);
    RequestRoundTrip.ParsedAsWritten(w, uninitialised);
    HostIsAHeader();
    var q := RequestSpec.Parse(RequestSpec.Unparsed(Witnesses.GetText(url)), uninitialised).request;
    SameMatching(Begun(q.status), q, RequestRoundTrip.AsWritten(w, ""), servers, disk);
  }

  /** In the run that ends on a null route, whatever the servers are. */
  lemma RefusedRequestIsReal(uninitialised: int, servers: seq<ConfigRoundTrip.ServerTree>, disk: Disk)
    requires servers != []
    ensures Processes(PollerFatalRun.IS_REFUSED[1], PollerFatalRun.DOTTED, uninitialised, servers, disk)
  {
    Witnesses.DottedPath();
    DottedIsProcessed("/a.b.c", PollerFatalRun.IS_REFUSED[1], uninitialised, servers, disk);
  }

  lemma DottedIsProcessed(url: string, a: Answer, uninitialised: int, servers: seq<ConfigRoundTrip.ServerTree>,
      disk: Disk)
    requires url != "" && ' ' !in url && RequestSpec.WithoutSlash(url) == url && servers != []
    requires Count(RequestRoundTrip.PathOf(url), '.') > 1
    requires a.parse == ParsedTo(RequestSpec.BAD_REQUEST, true) && a.route == Unmatched
    ensures Processes(a, Witnesses.GetText(url), uninitialised, servers, disk)
  {
    Witnesses.DottedTarget(RequestSpec.Unparsed(""), url);
    GetIsProcessed(url, a, uninitialised, servers, disk);
  }

  /** In the run that ends on an exception, for a server that redirects with 299. */
  lemma UnknownRedirectIsReal(uninitialised: int, disk: Disk)
    ensures Processes(PollerFatalRun.IS_REDIRECTED[1], PollerFatalRun.ROOT, uninitialised,
                      [Witnesses.RedirectingServer(299)], disk)
  {
    Witnesses.RootPath();
    Witnesses.RedirectingIsMatched(299, RequestRoundTrip.AsWritten(Witnesses.Get("/"), ""), disk);
    GetIsProcessed("/", PollerFatalRun.IS_REDIRECTED[1], uninitialised, [Witnesses.RedirectingServer(299)], disk);
  }

  lemma FileIsProcessed(url: string, a: Answer, uninitialised: int, disk: Disk)
    requires url != "" && ' ' !in url && RequestSpec.WithoutSlash(url) == url
    requires Before(url, '?') == url && Count(url, '.') == 1 && RequestSpec.FileOf(url) == ("/", "a.py")
    requires a.parse == ParsedTo(OK, true) && a.route == Route(OK, true)
    ensures Processes(a, Witnesses.GetText(url), uninitialised, [Witnesses.SCRIPTING_SERVER], disk)
  {
    Witnesses.SplitOfPath(RequestSpec.Unparsed(""), url);
    Witnesses.ScriptIsMatched(RequestRoundTrip.AsWritten(Witnesses.Get(url), ""), disk);
    GetIsProcessed(url, a, uninitialised, [Witnesses.SCRIPTING_SERVER], disk);
  }

  /** In the run that ends on a null connection, for a server that runs `.py` files. */
  lemma ScriptIsReal(uninitialised: int, disk: Disk)
    ensures Processes(PollerFatalRun.STARTS_CGI[1], PollerFatalRun.SCRIPT, uninitialised,
                      [Witnesses.SCRIPTING_SERVER], disk)
  {
    Witnesses.ScriptPath();
    Witnesses.ScriptFile();
    FileIsProcessed("/a.py", PollerFatalRun.STARTS_CGI[1], uninitialised, disk);
  }
}
