/** Runs from the start that stop the loop, with a kernel that does nothing unusual: a client
    hangs up while its CGI is running and the CGI writes afterwards; a client is answered that
    has no route, or with a status that has no reason phrase. */
module PollerFatalRun {
  import opened CppStrings
  import opened PollerState
  import opened PollerRounds
  import opened PollerRuns
  import Witnesses

  const QUIET := Answer(false, false, false, false, Error, 9, false, ParsedTo(OK, true), Unmatched, "")

  const CONNECTS := [QUIET.(readable := true, descriptor := 4)]
  const STARTS_CGI := [QUIET, QUIET.(writable := true, descriptor := 5, route := Route(OK, true))]
  const HANGS_UP := [QUIET, QUIET.(hangup := true), QUIET]
  const CGI_WRITES := [QUIET, QUIET.(readable := true, received := Data("late"))]
  const IS_REFUSED := [QUIET, QUIET.(writable := true, parse := ParsedTo(400, true))]
  const IS_REDIRECTED := [QUIET, QUIET.(writable := true, route := Route(299, false))]

  const SCRIPT: string := Witnesses.GetText("/a.py")
  const DOTTED: string := Witnesses.GetText("/a.b.c")
  const ROOT: string := Witnesses.GetText("/")

  function Sending(text: string): seq<Answer> {
    [QUIET, QUIET.(readable := true, received := Data(text))]
  }

  const CONNECTED := NewConn(0)
  const RUNNING := Conn(0, "", true, OK, true, true, Some(Cgi(5, "", false)), true)

  const CLIENT: State := Initial(3).(
    pfds := [PollFd(3, false), PollFd(4, true)], clients := map[4 := CONNECTED], pending := Some((4, CONNECTED)),
    open := {3, 4}, nextId := 1, log := [Accepted(0, 4)])

  function Requested(text: string): State {
    CLIENT.(clients := map[4 := CONNECTED.(raw := text)], pending := None)
  }

  const CGI: State := Requested(SCRIPT).(
    pfds := [PollFd(3, false), PollFd(4, true), PollFd(5, false)], clients := map[4 := RUNNING],
    open := {3, 4, 5}, log := [Accepted(0, 4), Event.Spawned(0, 5)])
  const ORPHAN: State := CGI.(pfds := [PollFd(3, false), PollFd(5, false)], clients := map[], open := {3, 5})

  lemma SingleKey(k: int)
    ensures SortedKeys({k}) == [k]
  {
    var keys := SortedKeys({k});
    assert k in keys;
    assert Least({k}) == k;
    assert {k} - {k} == {};
  }

  lemma AnyIsReady(answers: seq<Answer>, i: nat)
    requires i < |answers| && Ready(answers[i])
    ensures AnyReady(answers)
  {
  }

  lemma Connects()
    ensures LegalRound(Initial(3), CONNECTS)
    ensures Round(Initial(3), CONNECTS) == Alive(CLIENT)
  {
    var s := Initial(3);
    AnyIsReady(CONNECTS, 0);
    var t := Accepting(s, 4);
    assert Entry(s, 0, CONNECTS[0]) == Alive(t);
    assert Dispatch(s, 0, CONNECTS) == Alive(t);
    SingleKey(4);
    assert WithConnection(t).clients.Keys == {4};
    assert Added(t) == CLIENT;
  }

  lemma Sends(text: string)
    requires text != ""
    ensures LegalRound(CLIENT, Sending(text))
    ensures Round(CLIENT, Sending(text)) == Alive(Requested(text))
  {
    var s, answers := CLIENT.(pending := None), Sending(text);
    AnyIsReady(answers, 1);
    assert Entry(s, 0, answers[0]) == Alive(s);
    SingleKey(4);
    assert s.clients.Keys == {4};
    assert Owner(s, 4) == None;
    var t := Receiving(s, 4, Data(text));
    assert "" + text == text;
    assert t.clients == map[4 := CONNECTED.(raw := text)];
    assert t == Requested(text);
    assert Entry(s, 1, answers[1]) == Alive(t);
    assert LegalFrom(s, 1, answers);
    assert Dispatch(s, 1, answers) == Alive(t);
    assert Dispatch(s, 0, answers) == Alive(t);
    assert t.clients.Keys == {4};
    assert WithPipes(t, [4]) == t;
    assert Added(t) == Requested(text);
  }

  lemma StartsCgi()
    ensures LegalRound(Requested(SCRIPT), STARTS_CGI)
    ensures Round(Requested(SCRIPT), STARTS_CGI) == Alive(CGI)
  {
    var s := Requested(SCRIPT);
    AnyIsReady(STARTS_CGI, 1);
    assert Entry(s, 0, STARTS_CGI[0]) == Alive(s);
    var t := Serving(s, 4, STARTS_CGI[1]);
    assert Processed(s.clients[4], STARTS_CGI[1]) == RUNNING.(cgi := None, cgiAdded := false);
    assert t.clients == map[4 := RUNNING.(cgiAdded := false)];
    assert Entry(s, 1, STARTS_CGI[1]) == Alive(t);
    assert LegalFrom(s, 1, STARTS_CGI);
    assert Dispatch(s, 1, STARTS_CGI) == Alive(t);
    assert Dispatch(s, 0, STARTS_CGI) == Alive(t);
    SingleKey(4);
    assert t.clients.Keys == {4};
    assert WithPipe(t, 4).clients == map[4 := RUNNING];
    assert WithPipe(t, 4) == CGI;
    assert WithPipes(t, [4]) == CGI;
    assert Added(t) == CGI;
  }

  lemma HangsUp()
    ensures LegalRound(CGI, HANGS_UP)
    ensures Round(CGI, HANGS_UP) == Alive(ORPHAN)
  {
    var s := CGI;
    AnyIsReady(HANGS_UP, 1);
    assert Entry(s, 0, HANGS_UP[0]) == Alive(s);
    var t := Dropping(s, 4);
    assert Entry(s, 1, HANGS_UP[1]) == Alive(t);
    assert Entry(t, 2, HANGS_UP[2]) == Alive(t);
    assert LegalFrom(t, 2, HANGS_UP) && LegalFrom(s, 1, HANGS_UP);
    assert Dispatch(t, 2, HANGS_UP) == Alive(t);
    assert Dispatch(s, 1, HANGS_UP) == Alive(t);
    assert Dispatch(s, 0, HANGS_UP) == Alive(t);
    assert Pos(s.pfds, 4) == 1;
    assert DropOne(t, 4).(dropped := []) == ORPHAN;
    assert Deleted(t) == ORPHAN;
    assert ORPHAN.clients.Keys == {};
    assert Added(ORPHAN) == ORPHAN;
  }

  lemma CgiWrites()
    ensures LegalRound(ORPHAN, CGI_WRITES)
    ensures Round(ORPHAN, CGI_WRITES) == Dead(ORPHAN, NoConnection)
  {
    var s := ORPHAN;
    AnyIsReady(CGI_WRITES, 1);
    assert Entry(s, 0, CGI_WRITES[0]) == Alive(s);
    assert Entry(s, 1, CGI_WRITES[1]) == Dead(s, NoConnection);
    assert LegalFrom(s, 1, CGI_WRITES);
    assert Dispatch(s, 1, CGI_WRITES) == Dead(s, NoConnection);
  }

  lemma IsRefused()
    ensures LegalRound(Requested(DOTTED), IS_REFUSED)
    ensures Round(Requested(DOTTED), IS_REFUSED) == Dead(Requested(DOTTED), NoRoute)
  {
    var s := Requested(DOTTED);
    AnyIsReady(IS_REFUSED, 1);
    assert Entry(s, 0, IS_REFUSED[0]) == Alive(s);
    assert DOTTED != "" by { assert |DOTTED| > 0; }
    assert Fatal(s.clients[4], IS_REFUSED[1]) == Some(NoRoute);
    assert Entry(s, 1, IS_REFUSED[1]) == Dead(s, NoRoute);
    assert LegalFrom(s, 1, IS_REFUSED);
    assert Dispatch(s, 1, IS_REFUSED) == Dead(s, NoRoute);
  }

  lemma IsRedirected()
    ensures LegalRound(Requested(ROOT), IS_REDIRECTED)
    ensures Round(Requested(ROOT), IS_REDIRECTED) == Dead(Requested(ROOT), Exception)
  {
    var s := Requested(ROOT);
    AnyIsReady(IS_REDIRECTED, 1);
    assert Entry(s, 0, IS_REDIRECTED[0]) == Alive(s);
    assert ROOT != "" by { assert |ROOT| > 0; }
    assert Fatal(s.clients[4], IS_REDIRECTED[1]) == Some(Exception);
    assert Entry(s, 1, IS_REDIRECTED[1]) == Dead(s, Exception);
    assert LegalFrom(s, 1, IS_REDIRECTED);
    assert Dispatch(s, 1, IS_REDIRECTED) == Dead(s, Exception);
  }

  lemma FatalStep(s: State, answers: seq<Answer>, t: State, rest: seq<seq<Answer>>)
    requires |answers| == |s.pfds| && LegalRound(s, answers) && Round(s, answers) == Alive(t)
    requires Fits(t, rest) && LegalRun(t, rest)
    ensures Fits(s, [answers] + rest) && LegalRun(s, [answers] + rest)
    ensures Run(s, [answers] + rest) == Run(t, rest)
  {
    assert ([answers] + rest)[0] == answers && ([answers] + rest)[1..] == rest;
  }

  lemma LastStep(s: State, answers: seq<Answer>)
    requires |answers| == |s.pfds| && LegalRound(s, answers) && Round(s, answers).Dead?
    ensures Fits(s, [answers] + []) && LegalRun(s, [answers] + []) && Run(s, [answers] + []) == Round(s, answers)
  {
    var rounds: seq<seq<Answer>> := [answers] + [];
    assert rounds[0] == answers;
  }

  /** A client that hangs up while its CGI is running stops the loop on a null connection. */
  lemma HangupDuringCgiIsFatal()
    ensures var rounds := [CONNECTS] + ([Sending(SCRIPT)] + ([STARTS_CGI] + ([HANGS_UP] + ([CGI_WRITES] + []))));
            && Fits(Initial(3), rounds) && LegalRun(Initial(3), rounds)
            && Run(Initial(3), rounds) == Dead(ORPHAN, NoConnection)
  {
    CgiWrites();
    LastStep(ORPHAN, CGI_WRITES);
    var r4: seq<seq<Answer>> := [CGI_WRITES] + [];
    HangsUp();
    FatalStep(CGI, HANGS_UP, ORPHAN, r4);
    var r3 := [HANGS_UP] + r4;
    StartsCgi();
    FatalStep(Requested(SCRIPT), STARTS_CGI, CGI, r3);
    var r2 := [STARTS_CGI] + r3;
    Sends(SCRIPT);
    FatalStep(CLIENT, Sending(SCRIPT), Requested(SCRIPT), r2);
    Connects();
    FatalStep(Initial(3), CONNECTS, CLIENT, [Sending(SCRIPT)] + r2);
  }

  /** A client whose request is left at status 400 stops the loop on a null route. */
  lemma RefusedRequestIsFatal()
    ensures var rounds := [CONNECTS] + ([Sending(DOTTED)] + ([IS_REFUSED] + []));
            && Fits(Initial(3), rounds) && LegalRun(Initial(3), rounds)
            && Run(Initial(3), rounds) == Dead(Requested(DOTTED), NoRoute)
  {
    IsRefused();
    LastStep(Requested(DOTTED), IS_REFUSED);
    var r2: seq<seq<Answer>> := [IS_REFUSED] + [];
    Sends(DOTTED);
    FatalStep(CLIENT, Sending(DOTTED), Requested(DOTTED), r2);
    Connects();
    FatalStep(Initial(3), CONNECTS, CLIENT, [Sending(DOTTED)] + r2);
  }
  /** A client that is redirected with a code without a reason phrase stops the loop on an
      exception. */
  lemma UnknownRedirectIsFatal()
    ensures var rounds := [CONNECTS] + ([Sending(ROOT)] + ([IS_REDIRECTED] + []));
            && Fits(Initial(3), rounds) && LegalRun(Initial(3), rounds)
            && Run(Initial(3), rounds) == Dead(Requested(ROOT), Exception)
  {
    IsRedirected();
    LastStep(Requested(ROOT), IS_REDIRECTED);
    var r2: seq<seq<Answer>> := [IS_REDIRECTED] + [];
    Sends(ROOT);
    FatalStep(CLIENT, Sending(ROOT), Requested(ROOT), r2);
    Connects();
    FatalStep(Initial(3), CONNECTS, CLIENT, [Sending(ROOT)] + r2);
  }
}
