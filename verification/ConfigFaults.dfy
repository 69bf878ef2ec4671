/** Which configurations make the compiler do what it must not: pop an empty queue, follow a
    pointer that was never set, or read behind the end of a string. */
module ConfigFaults {
  import opened CppStrings
  import opened Tokenizer
  import opened ConfigMachine
  import opened ConfigSafety
  import opened ConfigLines
  import opened ConfigComments

  /** A server or a route is used though none was begun: a bracket opens a level whatever
      stands in front of it. */
  predicate LostPointer(s: MachineState, word: string) {
    || (word == "}" && s.level == SERVER && s.serverBlock.None?)
    || (word == "}" && s.level == LOCATION && (s.serverBlock.None? || s.route.None?))
    || (word in LEVELS && LEVELS[word] == SERVER == s.level && word != "location" && s.serverBlock.None?)
    || (word in LEVELS && LEVELS[word] == LOCATION == s.level && s.route.None?)
  }

  /** A directive of a location lacks its argument at the end of the file, or has a path too
      short to be looked at. */
  predicate LostArgument(s: MachineState, tokens: seq<string>)
    requires tokens != []
  {
    && s.level == LOCATION
    && ((tokens[0] in {"root", "autoindex", "upload_path"} && |tokens| == 1)
        || (tokens[0] in {"root", "upload_path"} && |tokens| > 1 && tokens[1] in {"", "."}))
  }

  /** A comment in the last line of a file, without a newline behind it. */
  predicate OpenComment(tokens: seq<string>)
    requires tokens != []
  {
    tokens[0] == "#" && NL !in tokens
  }

  predicate FaultsAt(s: MachineState, tokens: seq<string>)
    requires tokens != []
  {
    OpenComment(tokens) || LostPointer(s, tokens[0]) || LostArgument(s, tokens)
  }

  lemma {:induction false} NoNewlineLeft(tokens: seq<string>)
    ensures FromNewline(tokens) == [] <==> NL !in tokens
  {
    if tokens != [] && tokens[0] != NL {
      NoNewlineLeft(tokens[1..]);
      assert tokens == [tokens[0]] + tokens[1..];
    }
  }

  lemma CloseFaults(s: MachineState, tokens: seq<string>)
    requires Nested(s) && tokens != [] && tokens[0] == "}"
    ensures Close(s, tokens) == Fault <==> LostPointer(s, "}")
  {
    assert "}" !in LEVELS;
  }

  lemma RouteDirectiveFaults(fs: FileSystem, route: Route, tokens: seq<string>)
    requires tokens != [] && tokens[0] in LEVELS && LEVELS[tokens[0]] == LOCATION
    ensures ParseRouteDirective(fs, route, tokens) == Undefined <==>
              || (tokens[0] in {"root", "autoindex", "upload_path"} && |tokens| == 1)
              || (tokens[0] in {"root", "upload_path"} && |tokens| > 1 && tokens[1] in {"", "."})
  {
    MethodsNeverFault(tokens[1..], []);
    PathFaults(tokens);
  }

  lemma PathFaults(tokens: seq<string>)
    requires tokens != []
    ensures |tokens| > 1 ==> (BelowHtml(tokens[1]).None? <==> tokens[1] in {"", "."})
  {
    if |tokens| > 1 && tokens[1] != "" && tokens[1][0] == '.' && |tokens[1]| < 2 {
      assert tokens[1] == ".";
    }
  }

  lemma {:induction false} MethodsNeverFault(tokens: seq<string>, methods: seq<string>)
    ensures TakeMethods(tokens, methods) != Undefined
    decreases |tokens|
  {
    if tokens != [] && tokens[0] in DEFAULT_METHODS {
      MethodsNeverFault(tokens[1..], methods + [tokens[0]]);
    }
  }

  lemma DirectiveFaults(fs: FileSystem, s: MachineState, tokens: seq<string>)
    requires tokens != [] && tokens[0] != "}" && tokens[0] != "#"
    ensures Directive(fs, s, tokens) == Fault <==> LostPointer(s, tokens[0]) || LostArgument(s, tokens)
  {
    if tokens[0] in LEVELS && LEVELS[tokens[0]] == s.level == LOCATION {
      TakeMethodsLeavesToken(tokens[1..], []);
      RouteDirectiveFaults(fs, NEW_ROUTE, tokens);
      if s.route.Some? {
        RouteDirectiveFaults(fs, s.routes[s.route.value], tokens);
      }
    }
  }

  /** A pass faults in exactly these cases. */
  lemma StepFaults(fs: FileSystem, s: MachineState, tokens: seq<string>)
    requires Nested(s) && tokens != []
    ensures Step(fs, s, tokens) == Fault <==> FaultsAt(s, tokens)
  {
    NoNewlineLeft(tokens);
    if tokens[0] == "}" {
      CloseFaults(s, tokens);
    } else if tokens[0] != "#" && tokens[0] != "{" && tokens[0] != NL {
      DirectiveFaults(fs, s, tokens);
    }
  }

  lemma {:induction false} RunFaults(fs: FileSystem, s: MachineState, tokens: seq<string>)
    requires Nested(s)
    ensures Run(fs, s, tokens) == Faulted <==> exists n: nat :: FaultsAfter(fs, s, tokens, n)
    decreases |tokens|
  {
    if tokens != [] {
      StepFaults(fs, s, tokens);
      FaultsAfterFirst(fs, s, tokens);
      if Step(fs, s, tokens).Next? {
        StepKeepsNested(fs, s, tokens);
        RunFaults(fs, Step(fs, s, tokens).state, Step(fs, s, tokens).rest);
      }
    }
  }

  /** After `n` passes the machine stands where it faults. */
  ghost predicate FaultsAfter(fs: FileSystem, s: MachineState, tokens: seq<string>, n: nat) {
    var h := Head(fs, s, tokens, n);
    h.Some? && h.value.1 != [] && FaultsAt(h.value.0, h.value.1)
  }

  lemma FaultsAfterFirst(fs: FileSystem, s: MachineState, tokens: seq<string>)
    requires tokens != []
    ensures (exists n: nat :: FaultsAfter(fs, s, tokens, n)) <==>
              || FaultsAt(s, tokens)
              || (Step(fs, s, tokens).Next? &&
                  exists n: nat :: FaultsAfter(fs, Step(fs, s, tokens).state, Step(fs, s, tokens).rest, n))
  {
    if FaultsAt(s, tokens) {
      assert FaultsAfter(fs, s, tokens, 0);
    }
    if Step(fs, s, tokens).Next? {
      var s', rest := Step(fs, s, tokens).state, Step(fs, s, tokens).rest;
      if n: nat :| FaultsAfter(fs, s', rest, n) {
        assert FaultsAfter(fs, s, tokens, n + 1);
      }
    }
    if n: nat :| FaultsAfter(fs, s, tokens, n) && n > 0 {
      assert FaultsAfter(fs, Step(fs, s, tokens).state, Step(fs, s, tokens).rest, n - 1);
    }
  }

  /** A configuration makes the compiler fault exactly when some pass finds an open comment, a
      pointer that was never set, or an argument that is not there. */
  lemma FaultsExactly(fs: FileSystem, text: string)
    requires text != ""
    ensures Compile(fs, text) == Faulted <==> exists n: nat :: FaultsAfter(fs, INITIAL, Tokens(text), n)
  {
    RunFaults(fs, INITIAL, Tokens(text));
  }

  // Witnesses.

  /** Any text that has been read without trouble up to a line start makes the compiler fault
      when a comment without a newline follows; an accepted configuration does. */
  lemma OpenCommentFaults(fs: FileSystem, head: string, line: string)
    requires AtLineStart(head) && IsCommentLine(line)
    requires head == "" || Compile(fs, head).Accepted?
    ensures Compile(fs, head + line) == Faulted
  {
    var queue := Lex([], "", head);
    var words := CommentWords(line);
    LexLine(queue, "", line, "");
    ThreePassesAreOne([], "", head + line);
    ThreePassesAreOne([], "", head);
    if head == "" {
      assert head + line == line;
    } else {
      LexFromLineStart([], "", head, line);
    }
    assert Tokens(head + line) == queue + (["#"] + words);
    RunLines(fs, INITIAL, queue, ["#"] + words);
    assert queue + [] == queue;
    RunLines(fs, INITIAL, queue, []);
    OpenCommentStops(fs, Exec(fs, INITIAL, queue), words);
  }

  lemma OpenCommentStops(fs: FileSystem, p: Progress, words: seq<string>)
    requires NL !in words && p.Done?
    ensures Then(fs, p, ["#"] + words) == Faulted
  {
    assert "#" != NL by { assert NL[0] == '\n'; }
    NoNewlineLeft(["#"] + words);
  }

  /** Two blocks opened around nothing use a server that was never made. */
  lemma EmptyNestFaults(fs: FileSystem)
    ensures Run(fs, INITIAL, ["{", "{", "}"]) == Faulted
  {
    var tokens := ["{", "{", "}"];
    assert tokens[1..] == ["{", "}"] && tokens[1..][1..] == ["}"];
    var s1 := Opened(INITIAL);
    assert Step(fs, INITIAL, tokens) == Next(s1, ["{", "}"]);
    var s2 := Opened(s1);
    assert Step(fs, s1, ["{", "}"]) == Next(s2, ["}"]);
    assert Step(fs, s2, ["}"]) == Fault;
  }
}
