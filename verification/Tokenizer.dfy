/** From configuration text to tokens: tabs become spaces, newlines are set apart by
    spaces, and the result is split at spaces with runs of newline tokens collapsed. */
module Tokenizer {
  import opened CppStrings

  const NL: string := "\n"

  // The three passes as the program makes them.

  function TabsReplaced(s: string): string {
    if s == "" then "" else [if s[0] == '\t' then ' ' else s[0]] + TabsReplaced(s[1..])
  }

  /** `s.find(part, start)`. */
  function FindString(s: string, part: string, start: nat): (p: int)
    requires start <= |s|
    ensures p == NPOS || start <= p <= |s| - |part|
    decreases |s| - start
  {
    if start + |part| > |s| then NPOS
    else if s[start..start + |part|] == part then start
    else if start == |s| then NPOS
    else FindString(s, part, start + 1)
  }

  /** Every occurrence of `from`, left to right without overlap, replaced by `to`. */
  function Replaced(s: string, from: string, to: string): string
    requires from != ""
    decreases |s|
  {
    if |s| < |from| then s
    else if s[..|from|] == from then to + Replaced(s[|from|..], from, to)
    else [s[0]] + Replaced(s[1..], from, to)
  }

  /** Replacing in the rest of a string, given where `from` occurs next. */
  function ReplacedAt(s: string, from: string, to: string, start: nat, p: int): string
    requires from != "" && start <= |s|
    requires p == NPOS || start <= p <= |s| - |from|
  {
    if p == NPOS then s[start..] else s[start..p] + (to + Replaced(s[p + |from|..], from, to))
  }

  lemma PrependNothing(a: string)
    ensures "" + a == a
  {
  }

  lemma SliceOfDrop(s: string, start: nat, n: nat)
    requires start + n <= |s|
    ensures s[start..][..n] == s[start..start + n] && s[start..][n..] == s[start + n..]
  {
  }

  lemma {:induction false} FindThenReplace(s: string, from: string, to: string, start: nat)
    requires from != "" && start <= |s|
    ensures Replaced(s[start..], from, to) == ReplacedAt(s, from, to, start, FindString(s, from, start))
    decreases |s| - start
  {
    if start + |from| <= |s| {
      SliceOfDrop(s, start, |from|);
      if s[start..start + |from|] == from {
        assert s[start..start] == "";
        PrependNothing(to + Replaced(s[start + |from|..], from, to));
      } else {
        FindThenReplace(s, from, to, start + 1);
        SliceOfDrop(s, start, 1);
        StepBack(s, from, to, start, FindString(s, from, start + 1));
      }
    }
  }

  lemma SliceStep(s: string, start: nat, end: nat)
    requires start < end <= |s|
    ensures s[start..end] == [s[start]] + s[start + 1..end]
  {
  }

  lemma StepBack(s: string, from: string, to: string, start: nat, p: int)
    requires from != "" && start < |s|
    requires p == NPOS || start < p <= |s| - |from|
    ensures [s[start]] + ReplacedAt(s, from, to, start + 1, p) == ReplacedAt(s, from, to, start, p)
  {
    SliceStep(s, start, if p == NPOS then |s| else p);
    if p == NPOS {
      assert s[start..] == s[start..|s|] && s[start + 1..] == s[start + 1..|s|];
    } else {
      Associate([s[start]], s[start + 1..p], to + Replaced(s[p + |from|..], from, to));
    }
  }

  /** One edit of the loop: what is done moves past the inserted text. */
  lemma EditAt(s: string, from: string, to: string, index: nat, p: nat)
    requires from != "" && index <= p <= |s| - |from|
    ensures var edited := s[..p] + to + s[p + |from|..];
            && |edited| - (p + |to|) == |s| - p - |from|
            && edited[..p + |to|] + Replaced(edited[p + |to|..], from, to)
                == s[..index] + ReplacedAt(s, from, to, index, p)
  {
    var edited := s[..p] + to + s[p + |from|..];
    assert edited[..p + |to|] == s[..index] + s[index..p] + to;
    assert edited[p + |to|..] == s[p + |from|..];
    var rest := Replaced(s[p + |from|..], from, to);
    assert s[..index] + s[index..p] + to + rest == s[..index] + (s[index..p] + (to + rest));
  }

  /** The string grows while it is edited; the distance from the index to its end shrinks. */
  method StringReplaceMultiple(text: string, from: string, to: string) returns (str: string)
    requires from != ""
    ensures str == Replaced(text, from, to)
  {
    str := text;
    var index := 0;
    assert str[..0] + Replaced(str[0..], from, to) == Replaced(text, from, to) by { assert str[0..] == str; }
    while true
      invariant 0 <= index <= |str|
      invariant str[..index] + Replaced(str[index..], from, to) == Replaced(text, from, to)
      decreases |str| - index
    {
      FindThenReplace(str, from, to, index);
      var p := FindString(str, from, index);
      if p == NPOS {
        assert str == str[..index] + str[index..];
        break;
      }
      EditAt(str, from, to, index, p);
      str := str[..p] + to + str[p + |from|..];
      index := p + |to|;
    }
  }

  /** `push_back` of a word found between two delimiters: an empty word is no token, and a
      newline token is dropped behind another one. */
  function Pushed(queue: seq<string>, word: string): seq<string> {
    if word == "" || (word == NL && queue != [] && queue[|queue| - 1] == NL) then queue else queue + [word]
  }

  /** Splitting `rest` while `word` has been read since the last delimiter. */
  function Split(queue: seq<string>, word: string, rest: string, delims: string): seq<string>
    decreases |rest|
  {
    if rest == "" then (if word == "" then queue else queue + [word])
    else if rest[0] in delims then Split(Pushed(queue, word), "", rest[1..], delims)
    else Split(queue, word + [rest[0]], rest[1..], delims)
  }

  /** `s.find_first_of(delims, start)`. */
  function FindFirstOf(s: string, delims: string, start: nat): (p: int)
    requires start <= |s|
    ensures p == NPOS || start <= p < |s|
    decreases |s| - start
  {
    if start == |s| then NPOS else if s[start] in delims then start else FindFirstOf(s, delims, start + 1)
  }

  lemma GrownWord(word: string, s: string, start: nat, end: nat)
    requires start < end <= |s|
    ensures word + [s[start]] + s[start + 1..end] == word + s[start..end]
  {
    SliceStep(s, start, end);
    Associate(word, [s[start]], s[start + 1..end]);
  }

  lemma SplitAtDelimiter(queue: seq<string>, word: string, s: string, delims: string, start: nat)
    requires start <= |s|
    ensures var p := FindFirstOf(s, delims, start);
            Split(queue, word, s[start..], delims)
            == if p == NPOS then (if word + s[start..] == "" then queue else queue + [word + s[start..]])
               else Split(Pushed(queue, word + s[start..p]), "", s[p + 1..], delims)
    decreases |s| - start
  {
    if start == |s| {
      assert s[start..] == "";
      AppendNothing(word);
    } else {
      assert s[start..][1..] == s[start + 1..];
      if s[start] in delims {
        assert s[start..start] == "";
        AppendNothing(word);
      } else {
        SplitAtDelimiter(queue, word + [s[start]], s, delims, start + 1);
        GrownWord(word, s, start, |s|);
        assert s[start..|s|] == s[start..] && s[start + 1..|s|] == s[start + 1..];
        var p := FindFirstOf(s, delims, start + 1);
        if p != NPOS {
          GrownWord(word, s, start, p);
        }
      }
    }
  }

  method TokenizeString(str: string, delims: string) returns (queue: seq<string>)
    ensures queue == Split([], "", str, delims)
  {
    queue := [];
    var prev := 0;
    var pos := FindFirstOf(str, delims, prev);
    SplitAtDelimiter(queue, "", str, delims, 0);
    assert str[0..] == str;
    while pos != NPOS
      invariant 0 <= prev <= |str| && pos == FindFirstOf(str, delims, prev)
      invariant Split(queue, "", str[prev..], delims) == Split([], "", str, delims)
      decreases |str| - prev
    {
      SplitAtDelimiter(queue, "", str, delims, prev);
      assert "" + str[prev..pos] == str[prev..pos];
      if pos > prev {
        var sub := str[prev..pos];
        if queue == [] || !(sub == NL && queue[|queue| - 1] == NL) {
          queue := queue + [sub];
        }
      }
      prev := pos + 1;
      pos := FindFirstOf(str, delims, prev);
    }
    SplitAtDelimiter(queue, "", str, delims, prev);
    assert "" + str[prev..] == str[prev..];
    if prev < |str| {
      queue := queue + [str[prev..]];
    }
  }

  function Tokens(text: string): seq<string> {
    Split([], "", Replaced(TabsReplaced(text), NL, " \n "), " ")
  }

  /** The tokenizing half of `mapTokens`. */
  method Tokenize(configData: string) returns (tokens: seq<string>)
    ensures tokens == Tokens(configData)
  {
    var spaced := TabsReplaced(configData);
    var normalised := StringReplaceMultiple(spaced, NL, " \n ");
    tokens := TokenizeString(normalised, " ");
  }

  // The specification: lines, then words.

  predicate IsBlank(c: char) { c == ' ' || c == '\t' }

  /** The words of a line: its longest runs of non-blank characters. */
  function Words(word: string, line: string): seq<string>
    decreases |line|
  {
    if line == "" then (if word == "" then [] else [word])
    else if IsBlank(line[0]) then (if word == "" then [] else [word]) + Words("", line[1..])
    else Words(word + [line[0]], line[1..])
  }

  /** Ends a line: one newline token, unless the last token is one already. */
  function EndLine(queue: seq<string>): seq<string> {
    if queue != [] && queue[|queue| - 1] == NL then queue else queue + [NL]
  }

  function LinesThenWords(queue: seq<string>, text: string): seq<string>
    decreases |text|
  {
    if Find(text, '\n') == NPOS then queue + Words("", text)
    else LinesThenWords(EndLine(queue + Words("", Before(text, '\n'))), Past(text, '\n'))
  }

  /** One left-to-right reading of the text, which both sides are compared with. */
  function Lex(queue: seq<string>, word: string, text: string): seq<string>
    decreases |text|
  {
    if text == "" then AddWord(queue, word)
    else if text[0] == '\n' then Lex(EndLine(AddWord(queue, word)), "", text[1..])
    else if IsBlank(text[0]) then Lex(AddWord(queue, word), "", text[1..])
    else Lex(queue, word + [text[0]], text[1..])
  }

  function AddWord(queue: seq<string>, word: string): seq<string> {
    if word == "" then queue else queue + [word]
  }

  lemma ReplacedOne(c: char, rest: string)
    ensures Replaced([c] + rest, NL, " \n ") == (if c == '\n' then " \n " else [c]) + Replaced(rest, NL, " \n ")
  {
    var s := [c] + rest;
    assert s[..1] == [c] && s[1..] == rest;
  }

  lemma NotNewline(word: string)
    requires '\n' !in word
    ensures word != NL
  {
    assert NL[0] == '\n';
  }

  lemma {:induction false} ThreePassesAreOne(queue: seq<string>, word: string, text: string)
    requires '\n' !in word
    ensures Split(queue, word, Replaced(TabsReplaced(text), NL, " \n "), " ") == Lex(queue, word, text)
    decreases |text|
  {
    if text != "" {
      var c := if text[0] == '\t' then ' ' else text[0];
      var rest := Replaced(TabsReplaced(text[1..]), NL, " \n ");
      ReplacedOne(c, TabsReplaced(text[1..]));
      NotNewline(word);
      if c == '\n' {
        assert (" \n " + rest)[1..] == "\n " + rest;
        assert ("\n " + rest)[1..] == " " + rest;
        assert (" " + rest)[1..] == rest;
        assert Pushed(queue, word) == AddWord(queue, word);
        assert "" + ['\n'] == NL;
        assert Split(queue, word, " \n " + rest, " ") == Split(AddWord(queue, word), "", "\n " + rest, " ");
        assert Split(AddWord(queue, word), "", "\n " + rest, " ") == Split(AddWord(queue, word), NL, " " + rest, " ");
        assert Pushed(AddWord(queue, word), NL) == EndLine(AddWord(queue, word));
        ThreePassesAreOne(EndLine(AddWord(queue, word)), "", text[1..]);
      } else {
        assert ([c] + rest)[1..] == rest;
        if c == ' ' {
          ThreePassesAreOne(AddWord(queue, word), "", text[1..]);
        } else {
          ThreePassesAreOne(queue, word + [c], text[1..]);
        }
      }
    }
  }

  lemma LineStep(line: string, rest: string)
    requires line != ""
    ensures (line + ['\n'] + rest)[0] == line[0] && (line + ['\n'] + rest)[1..] == line[1..] + ['\n'] + rest
  {
  }

  lemma WordsStep(queue: seq<string>, word: string, line: string)
    requires line != "" && IsBlank(line[0])
    ensures AddWord(queue, word) + Words("", line[1..]) == queue + Words(word, line)
  {
  }

  /** Within a line, reading and splitting into words are the same. */
  lemma {:induction false} LexLine(queue: seq<string>, word: string, line: string, rest: string)
    requires '\n' !in line
    ensures Lex(queue, word, line + ['\n'] + rest) == Lex(EndLine(queue + Words(word, line)), "", rest)
    ensures Lex(queue, word, line) == queue + Words(word, line)
    decreases |line|
  {
    if line == "" {
      assert ("" + ['\n'] + rest)[1..] == rest;
      assert queue + [] == queue;
    } else {
      LineStep(line, rest);
      if IsBlank(line[0]) {
        LexLine(AddWord(queue, word), "", line[1..], rest);
        WordsStep(queue, word, line);
      } else {
        LexLine(queue, word + [line[0]], line[1..], rest);
      }
    }
  }

  lemma {:induction false} LexIsLinesThenWords(queue: seq<string>, text: string)
    ensures Lex(queue, "", text) == LinesThenWords(queue, text)
    decreases |text|
  {
    FindMeaning(text, '\n');
    if Find(text, '\n') == NPOS {
      LexLine(queue, "", text, "");
    } else {
      SplitAt(text, '\n');
      LexLine(queue, "", Before(text, '\n'), Past(text, '\n'));
      LexIsLinesThenWords(EndLine(queue + Words("", Before(text, '\n'))), Past(text, '\n'));
    }
  }

  /** The three-pass tokenizer is the lines-then-words one, on every text. */
  lemma TokenizerMeetsSpecification(text: string)
    ensures Tokens(text) == LinesThenWords([], text)
  {
    ThreePassesAreOne([], "", text);
    LexIsLinesThenWords([], text);
  }

  // What every token list looks like.

  predicate IsWord(token: string) {
    token != "" && forall i :: 0 <= i < |token| ==> !IsBlank(token[i]) && token[i] != '\n'
  }

  /** Tokens are words or single newlines, and no two newlines are neighbours. */
  predicate Canonical(tokens: seq<string>) {
    && (forall i :: 0 <= i < |tokens| ==> tokens[i] == NL || IsWord(tokens[i]))
    && (forall i :: 0 < i < |tokens| ==> tokens[i] != NL || tokens[i - 1] != NL)
  }

  lemma CanonicalWord(queue: seq<string>, word: string)
    requires Canonical(queue) && (word == "" || IsWord(word))
    ensures Canonical(AddWord(queue, word)) && Canonical(EndLine(AddWord(queue, word)))
  {
    NotNewline(word);
  }

  lemma {:induction false} LexIsCanonical(queue: seq<string>, word: string, text: string)
    requires Canonical(queue) && (word == "" || IsWord(word))
    ensures Canonical(Lex(queue, word, text))
    decreases |text|
  {
    CanonicalWord(queue, word);
    if text != "" {
      if text[0] == '\n' {
        LexIsCanonical(EndLine(AddWord(queue, word)), "", text[1..]);
      } else if IsBlank(text[0]) {
        LexIsCanonical(AddWord(queue, word), "", text[1..]);
      } else {
        LexIsCanonical(queue, word + [text[0]], text[1..]);
      }
    }
  }

  lemma TokensAreCanonical(text: string)
    ensures Canonical(Tokens(text))
  {
    ThreePassesAreOne([], "", text);
    LexIsCanonical([], "", text);
  }

  /** The text of the tokens that are words, and the text without its white space. */
  function Letters(tokens: seq<string>): string {
    if tokens == [] then ""
    else Letters(tokens[..|tokens| - 1]) + (if tokens[|tokens| - 1] == NL then "" else tokens[|tokens| - 1])
  }

  function Stripped(text: string): string {
    if text == "" then ""
    else (if text[0] == '\n' || IsBlank(text[0]) then "" else [text[0]]) + Stripped(text[1..])
  }

  lemma LettersPushed(queue: seq<string>, word: string)
    ensures Letters(queue + [word]) == Letters(queue) + (if word == NL then "" else word)
  {
    assert (queue + [word])[..|queue|] == queue;
  }

  lemma {:induction false} LexKeepsLetters(queue: seq<string>, word: string, text: string)
    requires word == "" || IsWord(word)
    ensures Letters(Lex(queue, word, text)) == Letters(queue) + word + Stripped(text)
    decreases |text|
  {
    if text == "" {
      LettersAddWord(queue, word);
      AppendNothing(Letters(queue) + word);
    } else if text[0] == '\n' || IsBlank(text[0]) {
      var q := AddWord(queue, word);
      var q' := if text[0] == '\n' then EndLine(q) else q;
      LettersAddWord(queue, word);
      LettersEndLine(q);
      LexKeepsLetters(q', "", text[1..]);
      AppendNothing(Letters(q'));
      StrippedStep(text);
    } else {
      LexKeepsLetters(queue, word + [text[0]], text[1..]);
      Regroup(Letters(queue), word, [text[0]], Stripped(text[1..]));
      StrippedStep(text);
    }
  }

  lemma AppendNothing(a: string)
    ensures a + "" == a
  {
  }

  lemma StrippedStep(text: string)
    requires text != ""
    ensures Stripped(text) == if text[0] == '\n'
        || IsBlank(text[0]) then Stripped(text[1..]) else [text[0]] + Stripped(text[1..])
  {
  }

  lemma Regroup(a: string, b: string, c: string, d: string)
    ensures a + (b + c) + d == a + b + (c + d)
  {
  }

  lemma LettersAddWord(queue: seq<string>, word: string)
    requires word == "" || IsWord(word)
    ensures Letters(AddWord(queue, word)) == Letters(queue) + word
  {
    NotNewline(word);
    LettersPushed(queue, word);
  }

  lemma LettersEndLine(queue: seq<string>)
    ensures Letters(EndLine(queue)) == Letters(queue)
  {
    LettersPushed(queue, NL);
  }

  /** Tokenizing loses and invents nothing but white space. */
  lemma TokensKeepLetters(text: string)
    ensures Letters(Tokens(text)) == Stripped(text)
  {
    ThreePassesAreOne([], "", text);
    LexKeepsLetters([], "", text);
    assert "" + "" + Stripped(text) == Stripped(text);
  }

  // Printing tokens.

  /** Each token followed by a space. */
  function Printed(tokens: seq<string>): string {
    if tokens == [] then "" else tokens[0] + " " + Printed(tokens[1..])
  }

  lemma {:induction false} LexWord(queue: seq<string>, read: string, word: string, rest: string)
    requires read + word != "" && forall i :: 0 <= i < |word| ==> !IsBlank(word[i]) && word[i] != '\n'
    ensures Lex(queue, read, word + " " + rest) == Lex(queue + [read + word], "", rest)
    decreases |word|
  {
    var text := word + " " + rest;
    if word == "" {
      assert text[1..] == rest;
      assert read + word == read;
    } else {
      assert text[1..] == word[1..] + " " + rest;
      assert read + [word[0]] + word[1..] == read + word;
      LexWord(queue, read + [word[0]], word[1..], rest);
    }
  }

  lemma {:induction false} LexPrinted(queue: seq<string>, tokens: seq<string>)
    requires Canonical(queue + tokens)
    ensures Lex(queue, "", Printed(tokens)) == queue + tokens
    decreases |tokens|
  {
    if tokens == [] {
      assert queue + [] == queue;
    } else {
      var rest := Printed(tokens[1..]);
      var text := tokens[0] + " " + rest;
      assert (queue + tokens)[|queue|] == tokens[0];
      assert queue + [tokens[0]] + tokens[1..] == queue + tokens;
      if tokens[0] == NL {
        assert text[1..] == " " + rest && (" " + rest)[1..] == rest;
        assert queue != [] ==> (queue + tokens)[|queue| - 1] == queue[|queue| - 1];
        assert EndLine(queue) == queue + [NL];
      } else {
        LexWord(queue, "", tokens[0], rest);
        assert "" + tokens[0] == tokens[0];
      }
      LexPrinted(queue + [tokens[0]], tokens[1..]);
    }
  }

  /** Printing a token list and tokenizing the text gives the list back. */
  lemma PrintThenTokenize(tokens: seq<string>)
    requires Canonical(tokens)
    ensures Tokens(Printed(tokens)) == tokens
  {
    ThreePassesAreOne([], "", Printed(tokens));
    assert [] + tokens == tokens;
    LexPrinted([], tokens);
  }
}
