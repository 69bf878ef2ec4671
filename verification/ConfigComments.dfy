/** Comment lines never change what a configuration means. */
module ConfigComments {
  import opened Tokenizer
  import opened ConfigMachine
  import opened ConfigLines

  /** A whole comment line in tokens. */
  function Comment(words: seq<string>): seq<string> {
    ["#"] + words + [NL]
  }

  lemma CommentIsSkipped(fs: FileSystem, s: MachineState, words: seq<string>, rest: seq<string>)
    requires NL !in words
    ensures Run(fs, s, Comment(words) + rest) == Run(fs, s, rest)
  {
    var tokens := Comment(words) + rest;
    assert "#" != NL by { assert NL[0] == '\n'; }
    assert tokens == (["#"] + words) + [NL] + rest;
    WordsThenNewline(["#"] + words, rest);
    assert ([NL] + rest)[1..] == rest;
    assert Step(fs, s, tokens) == Next(s, rest);
  }

  lemma NewlineIsSkipped(fs: FileSystem, s: MachineState, rest: seq<string>)
    ensures Run(fs, s, [NL] + rest) == Run(fs, s, rest)
  {
    assert ([NL] + rest)[1..] == rest;
  }

  /** Inserting a comment line at any line boundary keeps the verdict: the accepted
      configuration, the rejection and the fault alike. Read from right to left, deleting
      one does too. */
  lemma CommentErasure(fs: FileSystem, before: seq<string>, words: seq<string>, behind: seq<string>)
    requires EndsLine(before) && NL !in words
    ensures Run(fs, INITIAL, before + Comment(words) + behind) == Run(fs, INITIAL, before + behind)
  {
    assert before + Comment(words) + behind == before + (Comment(words) + behind);
    RunLines(fs, INITIAL, before, Comment(words) + behind);
    RunLines(fs, INITIAL, before, behind);
    match Exec(fs, INITIAL, before) {
      case Done(s) => CommentIsSkipped(fs, s, words, behind);
      case Stopped(_) =>
    }
  }

  // The same on text.

  predicate AtLineStart(text: string) {
    text == "" || text[|text| - 1] == '\n'
  }

  /** A line without the blanks in front. */
  function Unindented(line: string): string {
    if line != "" && IsBlank(line[0]) then Unindented(line[1..]) else line
  }

  /** A line whose first word is a `#`. */
  predicate IsCommentLine(line: string) {
    var text := Unindented(line);
    '\n' !in line && text != "" && text[0] == '#' && (|text| > 1 ==> IsBlank(text[1]))
  }

  lemma {:induction false} IndentationIsSkipped(line: string)
    ensures Words("", line) == Words("", Unindented(line))
    ensures '\n' !in line ==> '\n' !in Unindented(line)
  {
    if line != "" && IsBlank(line[0]) {
      IndentationIsSkipped(line[1..]);
      assert Words("", line) == [] + Words("", line[1..]);
    }
  }

  lemma {:induction false} LexFromLineStart(queue: seq<string>, word: string, head: string, tail: string)
    requires head != "" && AtLineStart(head)
    ensures Lex(queue, word, head + tail) == Lex(Lex(queue, word, head), "", tail)
    ensures Lex(queue, word, head) != [] && EndsLine(Lex(queue, word, head))
    decreases |head|
  {
    var text := head + tail;
    assert text[0] == head[0] && text[1..] == head[1..] + tail;
    var queue', word' :=
      if head[0] == '\n' then EndLine(AddWord(queue, word)) else if IsBlank(head[0]) then AddWord(queue, word)
          else queue,
      if head[0] == '\n' || IsBlank(head[0]) then "" else word + [head[0]];
    if |head| == 1 {
      assert head[1..] + tail == tail;
    } else {
      LexFromLineStart(queue', word', head[1..], tail);
    }
  }

  /** Only the last token of the queue matters to what is added to it. */
  lemma {:induction false} LexExtendsQueue(before: seq<string>, queue: seq<string>, word: string, text: string)
    requires queue != []
    ensures Lex(before + queue, word, text) == before + Lex(queue, word, text)
    decreases |text|
  {
    var q := AddWord(queue, word);
    assert AddWord(before + queue, word) == before + q;
    assert (before + q)[|before + q| - 1] == q[|q| - 1];
    assert EndLine(before + q) == before + EndLine(q);
    if text != "" {
      if text[0] == '\n' {
        LexExtendsQueue(before, EndLine(q), "", text[1..]);
      } else if IsBlank(text[0]) {
        LexExtendsQueue(before, q, "", text[1..]);
      } else {
        LexExtendsQueue(before, queue, word + [text[0]], text[1..]);
      }
    }
  }

  /** Once a word has begun, a newline token in front is simply kept. */
  lemma {:induction false} LexWordBehindNewline(word: string, text: string)
    requires word != "" && '\n' !in word
    ensures Lex([NL], word, text) == [NL] + Lex([], word, text)
    decreases |text|
  {
    NotNewline(word);
    assert AddWord([NL], word) == [NL] + [word] && AddWord([], word) == [word];
    if text != "" {
      if text[0] == '\n' || IsBlank(text[0]) {
        var queue := if text[0] == '\n' then EndLine([word]) else [word];
        assert EndLine([NL] + [word]) == [NL] + EndLine([word]);
        LexExtendsQueue([NL], queue, "", text[1..]);
      } else {
        LexWordBehindNewline(word + [text[0]], text[1..]);
      }
    }
  }

  /** Behind a newline token the same tokens follow, but for a newline token that is collapsed. */
  lemma {:induction false} LexBehindNewline(text: string)
    ensures Lex([NL], "", text) == [NL] + Lex([], "", text) || Lex([NL], "", text) == Lex([], "", text)
    ensures Lex([NL], "", text) != [] && Lex([NL], "", text)[0] == NL
    decreases |text|
  {
    LexStartsWithQueue([NL], "", text);
    if text != "" {
      if IsBlank(text[0]) {
        LexBehindNewline(text[1..]);
      } else if text[0] != '\n' {
        LexWordBehindNewline("" + [text[0]], text[1..]);
      } else {
        assert EndLine([]) == [NL] && EndLine([NL]) == [NL];
      }
    }
  }

  lemma {:induction false} LexStartsWithQueue(queue: seq<string>, word: string, text: string)
    requires queue != []
    ensures Lex(queue, word, text) != [] && Lex(queue, word, text)[0] == queue[0]
    decreases |text|
  {
    if text != "" {
      if text[0] == '\n' {
        LexStartsWithQueue(EndLine(AddWord(queue, word)), "", text[1..]);
      } else if IsBlank(text[0]) {
        LexStartsWithQueue(AddWord(queue, word), "", text[1..]);
      } else {
        LexStartsWithQueue(queue, word + [text[0]], text[1..]);
      }
    }
  }

  lemma {:induction false} WordsHoldNoNewline(word: string, line: string)
    requires '\n' !in word && '\n' !in line
    ensures NL !in Words(word, line)
    decreases |line|
  {
    NotNewline(word);
    if line != "" {
      assert '\n' !in line[1..];
      if IsBlank(line[0]) {
        WordsHoldNoNewline("", line[1..]);
      } else {
        WordsHoldNoNewline(word + [line[0]], line[1..]);
      }
    }
  }

  /** A comment line is read as a comment in tokens, followed by the rest of the text as it
      is read behind a newline. */
  lemma LexCommentLine(queue: seq<string>, line: string, rest: string) returns (words: seq<string>)
    requires IsCommentLine(line)
    ensures NL !in words
    ensures Lex(queue, "", line + "\n" + rest) == queue + (["#"] + words) + Lex([NL], "", rest)
  {
    words := CommentWords(line);
    LexLine(queue, "", line, rest);
    var before := queue + (["#"] + words);
    assert before[|before| - 1] != NL by { assert NL[0] == '\n'; }
    assert EndLine(before) == before + [NL];
    LexExtendsQueue(before, [NL], "", rest);
  }

  lemma CommentWords(line: string) returns (words: seq<string>)
    requires IsCommentLine(line)
    ensures NL !in words && Words("", line) == ["#"] + words
  {
    var text := Unindented(line);
    IndentationIsSkipped(line);
    assert Words("", text) == Words("#", text[1..]) by { assert "" + ['#'] == "#"; }
    words := if |text| == 1 then [] else Words("", text[2..]);
    assert Words("", text) == ["#"] + words by {
      assert |text| > 1 ==> text[1..][1..] == text[2..];
    }
    WordsHoldNoNewline("", if |text| == 1 then "" else text[2..]);
  }

  /** The tokens of the text behind a line start, given what precedes it. */
  lemma LexBehindLineStart(head: string, rest: string)
    requires AtLineStart(head)
    ensures EndsLine(Lex([], "", head))
    ensures var more := Lex([NL], "", rest);
            var whole := Lex([], "", head + rest);
            && more != [] && more[0] == NL
            && (whole == Lex([], "", head) + more[1..] || (head == "" && whole == more))
  {
    LexBehindNewline(rest);
    var more := Lex([NL], "", rest);
    if head == "" {
      assert head + rest == rest;
      assert [] + more[1..] == more[1..];
    } else {
      LexFromLineStart([], "", head, rest);
      var queue := Lex([], "", head);
      var front := queue[..|queue| - 1];
      assert queue == front + [NL];
      LexExtendsQueue(front, [NL], "", rest);
      assert more == [NL] + more[1..];
      assert front + more == queue + more[1..];
    }
  }

  /** Inserting a comment line at any line start of a configuration text, or deleting one,
      keeps the verdict. The text around it must not be empty, because an empty file is
      refused and a file of comments is not. */
  lemma TextCommentErasure(fs: FileSystem, head: string, line: string, rest: string)
    requires AtLineStart(head) && IsCommentLine(line) && head + rest != ""
    ensures Compile(fs, head + (line + "\n" + rest)) == Compile(fs, head + rest)
  {
    LexBehindNewline(rest);
    var queue, more := Lex([], "", head), Lex([NL], "", rest)[1..];
    LexBehindLineStart(head, rest);
    var words := TokensWithComment(head, line, rest);
    CommentErasure(fs, queue, words, more);
    ThreePassesAreOne([], "", head + rest);
    if Tokens(head + rest) != queue + more {
      NewlineIsSkipped(fs, INITIAL, more);
      assert queue + more == more;
    }
  }

  lemma TokensWithComment(head: string, line: string, rest: string) returns (words: seq<string>)
    requires AtLineStart(head) && IsCommentLine(line)
    ensures NL !in words && Lex([NL], "", rest) != []
    ensures Tokens(head + (line + "\n" + rest)) == Lex([], "", head) + Comment(words) + Lex([NL], "", rest)[1..]
  {
    var commented := line + "\n" + rest;
    var queue, more := Lex([], "", head), Lex([NL], "", rest);
    ThreePassesAreOne([], "", head + commented);
    LexBehindNewline(rest);
    words := LexCommentLine(queue, line, rest);
    if head == "" {
      assert head + commented == commented;
    } else {
      LexFromLineStart([], "", head, commented);
    }
    CommentOf(queue, words, more);
  }

  lemma CommentOf(queue: seq<string>, words: seq<string>, more: seq<string>)
    requires more != [] && more[0] == NL
    ensures queue + (["#"] + words) + more == queue + Comment(words) + more[1..]
  {
  }

  function CommentText(lines: seq<string>): string {
    if lines == [] then "" else lines[0] + "\n" + CommentText(lines[1..])
  }

  /** A file of comment lines alone is accepted, with no server, while an empty one is refused. */
  lemma {:induction false} CommentsAloneAreAccepted(fs: FileSystem, lines: seq<string>)
    requires forall i :: 0 <= i < |lines| ==> IsCommentLine(lines[i])
    ensures Compile(fs, CommentText(lines)) == if lines == [] then Rejected else Accepted(INITIAL)
  {
    if |lines| == 1 {
      OneCommentIsAccepted(fs, lines[0]);
      assert CommentText(lines[1..]) == "";
      assert lines[0] + "\n" + "" == lines[0] + "\n";
    } else if lines != [] {
      CommentsAloneAreAccepted(fs, lines[1..]);
      var rest := CommentText(lines[1..]);
      assert |rest| > 0;
      TextCommentErasure(fs, "", lines[0], rest);
      assert "" + (lines[0] + "\n" + rest) == CommentText(lines);
      assert "" + rest == rest;
    }
  }

  lemma OneCommentIsAccepted(fs: FileSystem, line: string)
    requires IsCommentLine(line)
    ensures Compile(fs, line + "\n") == Accepted(INITIAL)
  {
    ThreePassesAreOne([], "", line + "\n" + "");
    assert line + "\n" + "" == line + "\n";
    var words := LexCommentLine([], line, "");
    assert [] + (["#"] + words) + [NL] == Comment(words) + [];
    CommentIsSkipped(fs, INITIAL, words, []);
  }
}
